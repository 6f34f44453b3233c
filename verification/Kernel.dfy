/** The process and memory manager as one state machine: boot, fork, exit, block, unblock, clock tick, user-mode
    accesses. */
module Kernel {
  import opened Params
  import opened TaskQueues
  import opened Ticks
  import Mem = Memory
  import RR = RoundRobin

  datatype TaskState = StRun | StReady | StBlocked

  /** Where a task that does not run will continue: in ret_from_fork (or cpu_idle), at the end of the clock routine, in
      the console emulation that the clock routine calls first, or in another caller of task_switch. */
  datatype Resume = FromFork | FromClock | FromConsole | FromCall

  /** struct task_struct; its quantum is kept with the scheduler, its list links are the queues. */
  datatype Pcb = Pcb(pid: int, dir: nat, account: Account, state: TaskState, resume: Resume)

  datatype State = State(c: Config, mm: Mem.Mm, sch: RR.Sched, pcb: seq<Pcb>, pidMax: int)

  /** The clock readings of one kernel entry: on entry, at the event itself, when a task leaves the processor, when the
      next one arrives, and on the way back to user mode. */
  datatype Clock = Clock(entry: Reads, event: Reads, leave: Reads, arrive: Reads, back: Reads)

  datatype Step =
    | Fork(clk: Clock)
    | Exit(clk: Clock)
    | Block(queue: nat, clk: Clock)
    | Unblock(queue: nat, index: nat, clk: Clock)
    | Interrupt(at: Reads)     // the clock interrupts: clock_routine up to the console emulation, ...
    | Tick(clk: Clock)         // ... and the rest of it; in between, the console emulation unblocks whom it likes
    | EnterKernel(at: Reads)   // the accounting of any other system call, which may block in between
    | LeaveKernel(at: Reads)
    | UserWrite(va: nat, b: Mem.Byte)
    | KernelWrite(va: nat, b: Mem.Byte)   // a system call stores a byte of its answer for the caller
    | TlbFill(page: nat)
    | TlbEvict(page: nat)

  // ---------------------------------------------------------------- the invariant

  ghost predicate PidsOk(s: State)
    requires |s.sch.q| >= 2 && |s.pcb| == s.c.nr && s.c.nr >= 2
  {
    && 1 <= s.pidMax <= INT_MAX
    && s.pcb[s.c.nr - 1].pid == 0
    && (forall t :: Mem.Live(s.c, s.sch.q[FREE], t) ==> 1 <= s.pcb[t].pid <= s.pidMax)
    && (forall t, u ::
          Mem.Live(s.c, s.sch.q[FREE], t) && Mem.Live(s.c, s.sch.q[FREE], u) && s.pcb[t].pid == s.pcb[u].pid ==> t == u)
  }

  ghost predicate PcbsOk(s: State)
    requires |s.sch.q| >= 2 && |s.pcb| == s.c.nr
  {
    && (forall t :: 0 <= t < s.c.nr && t !in s.sch.q[FREE] ==> s.pcb[t].dir == t)
    && (forall t :: 0 <= t < s.c.nr ==> Balanced(s.pcb[t].account))
    && (forall t :: 0 <= t < s.c.nr ==> s.pcb[t].state != StBlocked)
  }

  ghost predicate Inv(s: State)
  {
    && s.c.Valid()
    && RR.Partition(s.sch, s.c.nr) && RR.QuantumOk(s.sch, s.c.nr)
    && |s.pcb| == s.c.nr
    && PidsOk(s) && PcbsOk(s)
    && Mem.MmOk(s.c, s.mm, s.sch.q[FREE])
    && s.mm.cr3 == s.sch.cur
  }

  /** Unused PCBs are recognisable by their PID. Not part of Inv: a fork that runs out of memory breaks it. */
  ghost predicate FreePidsClean(s: State)
    requires |s.sch.q| >= 2 && |s.pcb| == s.c.nr
  {
    forall t :: 0 <= t < s.c.nr && t in s.sch.q[FREE] ==> s.pcb[t].pid == -1
  }

  // ---------------------------------------------------------------- the steps

  /** Enough for the scheduling steps to be defined: the arrays have their sizes. */
  ghost predicate Sized(s: State)
  {
    s.c.nr >= 2 && |s.pcb| == s.c.nr && RR.Typed(s.sch, s.c.nr)
  }

  /** ... and for the steps that touch memory: the running task has a directory. */
  ghost predicate SizedMm(s: State)
  {
    Sized(s) && Mem.Shape(s.c, s.mm) && s.pcb[s.sch.cur].dir < s.c.nr
  }

  function Charge(s: State, t: nat, a: Account): State
    requires t < |s.pcb|
  {
    s.(pcb := s.pcb[t := s.pcb[t].(account := a)])
  }

  /** What a task does when it gets the processor back. */
  function Resumed(p: Pcb, isIdle: bool, clk: Clock): Pcb
  {
    match p.resume
    case FromFork => p.(account := if isIdle then p.account else KernelToUser(p.account, clk.arrive))
    case FromClock => p.(account := KernelToUser(ReadyToKernel(p.account, clk.arrive), clk.back), state := StRun)
    case FromConsole => p.(account := ReadyToKernel(p.account, clk.arrive), state := StRun)
    case FromCall => p.(account := ReadyToKernel(p.account, clk.arrive), state := StRun)
  }

  /** task_switch to the task the scheduler chose: account, install its directory, continue where it was. */
  function TaskSwitch(s: State, sch: RR.Sched, from: Resume, clk: Clock): State
    requires s.sch.cur < |s.pcb| && sch.cur < |s.pcb|
  {
    var prev := s.pcb[s.sch.cur];
    var pcb := s.pcb[s.sch.cur := prev.(account := KernelToUser(prev.account, clk.leave), state := StReady,
        resume := from)];
    s.(mm := Mem.SetCr3(s.mm, pcb[sch.cur].dir),
       sch := sch,
       pcb := pcb[sch.cur := Resumed(pcb[sch.cur], sch.cur == s.c.nr - 1, clk)])
  }

  /** The running task is in the clock routine, at the console emulation: interrupts are off, and the rest of the
      routine is still to come. While a task runs, `resume` says nothing else. */
  predicate InClock(s: State)
    requires s.sch.cur < |s.pcb|
  {
    s.pcb[s.sch.cur].resume.FromConsole?
  }

  /** clock_routine, up to the console emulation. */
  function InterruptStep(s: State, at: Reads): State
    requires s.sch.cur < |s.pcb|
  {
    var p := s.pcb[s.sch.cur];
    s.(pcb := s.pcb[s.sch.cur := p.(account := UserToKernel(p.account, at), resume := FromConsole)])
  }

  /** clock_routine, from update_sched_data on. */
  ghost function TickStep(s: State, clk: Clock): State
    requires Sized(s)
  {
    var cur, p := s.sch.cur, s.pcb[s.sch.cur];
    var requeue := p.pid != 0;
    var sch := RR.Next(s.sch, s.c.nr, RR.Tick(requeue));
    if Dec32(s.sch.cq) > 0 then
      s.(sch := sch, pcb := s.pcb[cur := p.(account := KernelToUser(p.account, clk.back), resume := FromClock)])
    else
      var s1 := if requeue then s else Charge(s, cur, KernelToUser(p.account, clk.event));
      TaskSwitch(s1, sch, FromClock, clk)
  }

  /** The whole routine, in which the console emulation may wake one task. */
  ghost function ClockStep(s: State, clk: Clock, wakes: bool, queue: nat, index: nat, wakeClk: Clock): State
    requires Inv(s) && (wakes ==> 2 <= queue < |s.sch.q| && index < |s.sch.q[queue]|)
  {
    InterruptKeeps(s, clk.entry);
    var s1 := InterruptStep(s, clk.entry);
    var s2 := if wakes then (UnblockKeeps(s1, queue, index, wakeClk); UnblockStep(s1, queue, index, wakeClk)) else s1;
    RestOfClock(s2, clk)
  }

  /** What remains to be done of a clock routine, if the running task is in one. */
  ghost function RestOfClock(s: State, clk: Clock): State
    requires Sized(s)
  {
    if InClock(s) then TickStep(s, clk) else s
  }

  /** sys_exit */
  ghost function ExitStep(s: State, clk: Clock): State
    requires SizedMm(s)
  {
    var cur := s.sch.cur;
    var s1 := Charge(s, cur, UserToKernel(s.pcb[cur].account, clk.entry));
    var s2 := s1.(mm := Mem.Exit(s.c, s.mm, s.pcb[cur].dir), pcb := s1.pcb[cur := s1.pcb[cur].(pid := -1)]);
    TaskSwitch(s2, RR.Next(s.sch, s.c.nr, RR.Exit), FromCall, clk)
  }

  /** block_process */
  ghost function BlockStep(s: State, queue: nat, clk: Clock): State
    requires Sized(s) && queue < |s.sch.q|
  {
    var cur := s.sch.cur;
    var blocked := s.pcb[cur].(account := EnterBlocked(s.pcb[cur].account, clk.event), state := StBlocked);
    TaskSwitch(s.(pcb := s.pcb[cur := blocked]), RR.Next(s.sch, s.c.nr, RR.Block(queue)), FromCall, clk)
  }

  /** unblock_process */
  ghost function UnblockStep(s: State, queue: nat, index: nat, clk: Clock): State
    requires Sized(s) && queue < |s.sch.q| && index < |s.sch.q[queue]|
  {
    var t := s.sch.q[queue][index];
    var sch := RR.Next(s.sch, s.c.nr, RR.Unblock(queue, index));
    var s1 := s.(pcb := s.pcb[t := s.pcb[t].(account := LeaveBlocked(s.pcb[t].account, clk.event), state := StReady)]);
    var from := if InClock(s) then FromConsole else FromCall;
    if s.sch.cq <= 0 then TaskSwitch(s1, sch, from, clk) else s1.(sch := sch)
  }

  /** sys_fork, with its return value in the parent. */
  ghost function ForkStep(s: State, clk: Clock): (State, int)
    requires SizedMm(s)
  {
    var cur, free := s.sch.cur, s.sch.q[FREE];
    var s1 := Charge(s, cur, UserToKernel(s.pcb[cur].account, clk.entry));
    var leave := KernelToUser(s1.pcb[cur].account, clk.back);
    if free == [] then (Charge(s1, cur, leave), -EAGAIN)
    else
      var child := free[0];
      var copy := s1.pcb[cur].(dir := child);
      var (mm, ok) := Mem.Fork(s.c, s.mm, s.pcb[cur].dir, child);
      if !ok then
        var s2 := s1.(mm := mm, sch := RR.Next(s.sch, s.c.nr, RR.ForkFailed), pcb := s1.pcb[child := copy]);
        (Charge(s2, cur, leave), -ENOMEM)
      else
        var pid := Inc32(s.pidMax);
        var born := copy.(pid := pid, account := Birth(copy.account.st, clk.event.first, s.c.quantum), state := StReady,
            resume := FromFork);
        var s2 := s1.(mm := mm, sch := RR.Next(s.sch, s.c.nr, RR.Fork), pcb := s1.pcb[child := born], pidMax := pid);
        (Charge(s2, cur, leave), pid)
  }

  ghost predicate Enabled(s: State, e: Step)
    requires Inv(s)
  {
    match e
    case Fork(_) => !InClock(s) && s.sch.cur != s.c.nr - 1 && s.pidMax < INT_MAX
    case Exit(_) => !InClock(s) && s.sch.cur != s.c.nr - 1
    case Block(b, _) => !InClock(s) && s.sch.cur != s.c.nr - 1 && 2 <= b < |s.sch.q|
    case Unblock(b, i, _) => 2 <= b < |s.sch.q| && i < |s.sch.q[b]|
    case Interrupt(_) => !InClock(s)
    case Tick(_) => InClock(s)
    case EnterKernel(_) | LeaveKernel(_) => !InClock(s)
    case UserWrite(va, _) => !InClock(s) && Mem.CanWrite(s.mm, va)
    case KernelWrite(va, _) => Mem.Reaches(s.mm, va)
    case TlbFill(page) => Mem.Walk(s.mm.pt[s.mm.cr3], page).Some?
    case TlbEvict(_) => true
  }

  ghost function Next(s: State, e: Step): State
    requires Inv(s) && Enabled(s, e)
  {
    match e
    case Fork(clk) => ForkStep(s, clk).0
    case Exit(clk) => ExitStep(s, clk)
    case Block(b, clk) => BlockStep(s, b, clk)
    case Unblock(b, i, clk) => UnblockStep(s, b, i, clk)
    case Interrupt(at) => InterruptStep(s, at)
    case Tick(clk) => TickStep(s, clk)
    case EnterKernel(at) => Charge(s, s.sch.cur, UserToKernel(s.pcb[s.sch.cur].account, at))
    case LeaveKernel(at) => Charge(s, s.sch.cur, KernelToUser(s.pcb[s.sch.cur].account, at))
    case UserWrite(va, b) => s.(mm := Mem.WriteByte(s.mm, va, b))
    case KernelWrite(va, b) => s.(mm := Mem.WriteByte(s.mm, va, b))
    case TlbFill(page) => s.(mm := Mem.TlbFill(s.mm, page))
    case TlbEvict(page) => s.(mm := Mem.TlbEvict(s.mm, page))
  }

  /** The scheduling event that a step is. */
  ghost function EventOf(s: State, e: Step): RR.Event
    requires Inv(s) && Enabled(s, e)
  {
    match e
    case Fork(clk) =>
      if s.sch.q[FREE] == [] then RR.Other
      else if ForkStep(s, clk).1 == -ENOMEM then RR.ForkFailed else RR.Fork
    case Exit(_) => RR.Exit
    case Block(b, _) => RR.Block(b)
    case Unblock(b, i, _) => RR.Unblock(b, i)
    case Tick(_) => RR.Tick(s.sch.cur != s.c.nr - 1)
    case _ => RR.Other
  }

  // ---------------------------------------------------------------- every step keeps the invariant

  /** What the scheduling events do to the free list. */
  lemma FreeListAfter(sch: RR.Sched, nr: nat, e: RR.Event)
    requires RR.Partition(sch, nr) && RR.Enabled(sch, nr, e)
    ensures |RR.Next(sch, nr, e).q| == |sch.q|
    ensures RR.Next(sch, nr, e).q[FREE] ==
      if e.Fork? then sch.q[FREE][1..] else if e.Exit? then sch.q[FREE] + [sch.cur] else sch.q[FREE]
  {
  }

  /** Idle is never free, so the free list holds numbers below it, each once. */
  lemma FreeListShape(sch: RR.Sched, nr: nat)
    requires RR.Partition(sch, nr)
    ensures forall t :: t in sch.q[FREE] ==> t < nr - 1
    ensures sch.q[FREE] != [] ==> sch.q[FREE][0] in sch.q[FREE] && sch.q[FREE][0] !in sch.q[FREE][1..]
    ensures sch.cur !in sch.q[FREE]
  {
    forall t | t in sch.q[FREE] ensures t < nr - 1 {
      assert RR.Typed(sch, nr);
      var i :| 0 <= i < |sch.q[FREE]| && sch.q[FREE][i] == t;
      assert Below(sch.q[FREE], nr);
    }
  }

  /** A switch moves time between accounts and leaves the other PCB fields alone. */
  lemma SwitchPcbs(s: State, sch: RR.Sched, from: Resume, clk: Clock)
    requires s.sch.cur < |s.pcb| && sch.cur < |s.pcb|
    requires forall t :: 0 <= t < |s.pcb| ==> Balanced(s.pcb[t].account)
    requires forall t :: 0 <= t < |s.pcb| && t != s.sch.cur ==> s.pcb[t].state != StBlocked
    ensures var s' := TaskSwitch(s, sch, from, clk);
      && |s'.pcb| == |s.pcb| && s'.c == s.c && s'.sch == sch && s'.pidMax == s.pidMax
      && s'.mm == Mem.SetCr3(s.mm, s.pcb[sch.cur].dir)
      && forall t :: 0 <= t < |s.pcb| ==>
           && Balanced(s'.pcb[t].account) && s'.pcb[t].state != StBlocked
           && s'.pcb[t].pid == s.pcb[t].pid && s'.pcb[t].dir == s.pcb[t].dir
  {
  }

  /** Only accounts and task states differ. */
  ghost predicate SameIdentity(s: State, s': State)
  {
    && |s'.pcb| == |s.pcb| && s'.c == s.c && s'.pidMax == s.pidMax
    && forall t :: 0 <= t < |s.pcb| ==>
         && Balanced(s'.pcb[t].account) && s'.pcb[t].state != StBlocked
         && s'.pcb[t].pid == s.pcb[t].pid && s'.pcb[t].dir == s.pcb[t].dir
  }

  /** A step that only schedules. */
  lemma ScheduleKeeps(s: State, s': State, e: RR.Event)
    requires Inv(s) && RR.Enabled(s.sch, s.c.nr, e) && !e.Fork? && !e.Exit?
    requires SameIdentity(s, s') && s'.sch == RR.Next(s.sch, s.c.nr, e)
    requires s'.sch.cur < s.c.nr
    requires (s'.mm == s.mm && s'.sch.cur == s.sch.cur) || s'.mm == Mem.SetCr3(s.mm, s.pcb[s'.sch.cur].dir)
    ensures Inv(s')
  {
    SchedulerKeeps(s.sch, s.c.nr, e);
    IdentityKeeps(s, s');
    if s'.mm != s.mm {
      Mem.SwitchKeeps(s.c, s.mm, s.sch.q[FREE], s'.sch.cur);
    }
  }

  lemma SchedulerKeeps(sch: RR.Sched, nr: nat, e: RR.Event)
    requires RR.Partition(sch, nr) && RR.QuantumOk(sch, nr) && RR.Enabled(sch, nr, e)
    ensures var sch' := RR.Next(sch, nr, e);
      && RR.Partition(sch', nr) && RR.QuantumOk(sch', nr) && sch'.cur !in sch'.q[FREE]
      && sch'.q[FREE] == if e.Fork? then sch.q[FREE][1..] else if e.Exit? then sch.q[FREE] + [sch.cur] else sch.q[FREE]
  {
    RR.NextKeepsPartition(sch, nr, e);
    RR.NextKeepsQuantum(sch, nr, e);
    FreeListAfter(sch, nr, e);
    FreeListShape(RR.Next(sch, nr, e), nr);
  }

  lemma IdentityKeeps(s: State, s': State)
    requires s.c.nr >= 2 && |s.sch.q| >= 2 && |s'.sch.q| >= 2 && |s.pcb| == s.c.nr && PidsOk(s) && PcbsOk(s)
    requires SameIdentity(s, s') && s'.sch.q[FREE] == s.sch.q[FREE]
    ensures PidsOk(s') && PcbsOk(s')
  {
  }

  /** The running task's PID is 0 exactly when it is idle. */
  lemma RunningPid(s: State)
    requires Inv(s)
    ensures s.pcb[s.sch.cur].pid != 0 <==> s.sch.cur != s.c.nr - 1
    ensures RR.Enabled(s.sch, s.c.nr, RR.Tick(s.pcb[s.sch.cur].pid != 0))
  {
    FreeListShape(s.sch, s.c.nr);
    assert s.sch.cur != s.c.nr - 1 ==> Mem.Live(s.c, s.sch.q[FREE], s.sch.cur);
  }

  /** A tick changes accounts only. */
  lemma TickIdentity(s: State, clk: Clock)
    requires Inv(s)
    ensures var s', e := TickStep(s, clk), RR.Tick(s.pcb[s.sch.cur].pid != 0);
      && RR.Enabled(s.sch, s.c.nr, e) && s'.sch == RR.Next(s.sch, s.c.nr, e) && s'.sch.cur < s.c.nr
      && SameIdentity(s, s')
      && ((s'.mm == s.mm && s'.sch.cur == s.sch.cur) || s'.mm == Mem.SetCr3(s.mm, s.pcb[s'.sch.cur].dir))
  {
    RunningPid(s);
    var cur, e := s.sch.cur, RR.Tick(s.pcb[s.sch.cur].pid != 0);
    if Dec32(s.sch.cq) <= 0 {
      var s1 := if e.requeue then s else Charge(s, cur, KernelToUser(s.pcb[cur].account, clk.event));
      assert RR.Next(s.sch, s.c.nr, e).cur < s.c.nr by { RR.NextKeepsPartition(s.sch, s.c.nr, e); }
      SwitchPcbs(s1, RR.Next(s.sch, s.c.nr, e), FromClock, clk);
    }
  }

  lemma InterruptKeeps(s: State, at: Reads)
    requires Inv(s)
    ensures Inv(InterruptStep(s, at))
  {
    ScheduleKeeps(s, InterruptStep(s, at), RR.Other);
  }

  lemma TickKeeps(s: State, clk: Clock)
    requires Inv(s)
    ensures Inv(TickStep(s, clk))
  {
    TickIdentity(s, clk);
    ScheduleKeeps(s, TickStep(s, clk), RR.Tick(s.pcb[s.sch.cur].pid != 0));
  }

  lemma BlockKeeps(s: State, queue: nat, clk: Clock)
    requires Inv(s) && s.sch.cur != s.c.nr - 1 && 2 <= queue < |s.sch.q|
    ensures Inv(BlockStep(s, queue, clk))
  {
    var cur := s.sch.cur;
    var blocked := s.pcb[cur].(account := EnterBlocked(s.pcb[cur].account, clk.event), state := StBlocked);
    RR.NextKeepsPartition(s.sch, s.c.nr, RR.Block(queue));
    SwitchPcbs(s.(pcb := s.pcb[cur := blocked]), RR.Next(s.sch, s.c.nr, RR.Block(queue)), FromCall, clk);
    ScheduleKeeps(s, BlockStep(s, queue, clk), RR.Block(queue));
  }

  lemma UnblockIdentity(s: State, queue: nat, index: nat, clk: Clock)
    requires Inv(s) && 2 <= queue < |s.sch.q| && index < |s.sch.q[queue]|
    ensures var s' := UnblockStep(s, queue, index, clk);
      && s'.sch == RR.Next(s.sch, s.c.nr, RR.Unblock(queue, index)) && s'.sch.cur < s.c.nr
      && SameIdentity(s, s')
      && ((s'.mm == s.mm && s'.sch.cur == s.sch.cur) || s'.mm == Mem.SetCr3(s.mm, s.pcb[s'.sch.cur].dir))
  {
    var t, sch := s.sch.q[queue][index], RR.Next(s.sch, s.c.nr, RR.Unblock(queue, index));
    var s1 := s.(pcb := s.pcb[t := s.pcb[t].(account := LeaveBlocked(s.pcb[t].account, clk.event), state := StReady)]);
    assert sch.cur < s.c.nr && (s.sch.cq > 0 ==> sch.cur == s.sch.cur) by {
      RR.NextKeepsPartition(s.sch, s.c.nr, RR.Unblock(queue, index));
    }
    assert SameIdentity(s, s1);
    if s.sch.cq <= 0 {
      SwitchPcbs(s1, sch, if InClock(s) then FromConsole else FromCall, clk);
    }
  }

  lemma UnblockKeeps(s: State, queue: nat, index: nat, clk: Clock)
    requires Inv(s) && 2 <= queue < |s.sch.q| && index < |s.sch.q[queue]|
    ensures Inv(UnblockStep(s, queue, index, clk))
  {
    UnblockIdentity(s, queue, index, clk);
    ScheduleKeeps(s, UnblockStep(s, queue, index, clk), RR.Unblock(queue, index));
  }

  lemma ExitStepKeeps(s: State, clk: Clock)
    requires Inv(s) && s.sch.cur != s.c.nr - 1
    ensures Inv(ExitStep(s, clk))
  {
    var cur, free := s.sch.cur, s.sch.q[FREE];
    SchedulerKeeps(s.sch, s.c.nr, RR.Exit);
    FreeListShape(s.sch, s.c.nr);
    var s' := ExitStep(s, clk);
    LeaverIdentity(s, clk, s'.sch);
    assert Mem.MmOk(s.c, s'.mm, s'.sch.q[FREE]) by {
      Mem.ExitKeeps(s.c, s.mm, free, cur);
      Mem.SwitchKeeps(s.c, Mem.Exit(s.c, s.mm, cur), free + [cur], s'.sch.cur);
    }
    LeaverKeeps(s, s');
  }

  lemma LeaverIdentity(s: State, clk: Clock, sch: RR.Sched)
    requires Inv(s) && s.sch.cur != s.c.nr - 1 && sch == RR.Next(s.sch, s.c.nr, RR.Exit) && sch.cur < s.c.nr
    ensures var s', cur := ExitStep(s, clk), s.sch.cur;
      && SameIdentity(s.(pcb := s.pcb[cur := s.pcb[cur].(pid := -1)]), s') && s'.sch == sch
      && s'.mm == Mem.SetCr3(Mem.Exit(s.c, s.mm, s.pcb[cur].dir), s.pcb[sch.cur].dir)
  {
    var cur := s.sch.cur;
    var s1 := Charge(s, cur, UserToKernel(s.pcb[cur].account, clk.entry));
    var s2 := s1.(mm := Mem.Exit(s.c, s.mm, s.pcb[cur].dir), pcb := s1.pcb[cur := s1.pcb[cur].(pid := -1)]);
    SwitchPcbs(s2, sch, FromCall, clk);
  }

  lemma LeaverKeeps(s: State, s': State)
    requires s.c.nr >= 2 && |s.sch.q| >= 2 && |s'.sch.q| >= 2 && |s.pcb| == s.c.nr && PidsOk(s) && PcbsOk(s)
    requires s.sch.cur < s.c.nr - 1
    requires SameIdentity(s.(pcb := s.pcb[s.sch.cur := s.pcb[s.sch.cur].(pid := -1)]), s')
    requires s'.sch.q[FREE] == s.sch.q[FREE] + [s.sch.cur]
    ensures PidsOk(s') && PcbsOk(s')
  {
    assert forall t :: Mem.Live(s.c, s'.sch.q[FREE], t) ==> Mem.Live(s.c, s.sch.q[FREE], t) && t != s.sch.cur;
  }

  /** Facts every fork starts from. */
  lemma ForkStart(s: State)
    requires Inv(s) && s.sch.cur != s.c.nr - 1
    ensures s.pcb[s.sch.cur].dir == s.sch.cur && Mem.Live(s.c, s.sch.q[FREE], s.sch.cur)
    ensures s.sch.q[FREE] != [] ==> s.sch.q[FREE][0] in s.sch.q[FREE] && s.sch.q[FREE][0] < s.c.nr - 1
                                    && s.sch.q[FREE][0] !in s.sch.q[FREE][1..] && s.sch.q[FREE][0] != s.sch.cur
  {
    FreeListShape(s.sch, s.c.nr);
  }

  /** Fork fails for lack of memory exactly when the data of one more process does not fit. */
  lemma ForkOutcome(s: State, clk: Clock)
    requires Inv(s) && s.sch.cur != s.c.nr - 1
    ensures var r, live := ForkStep(s, clk).1, s.c.nr - 1 - |s.sch.q[FREE]|;
      && (s.sch.q[FREE] == [] ==> r == -EAGAIN)
      && (s.sch.q[FREE] != [] && s.c.code + s.c.data * (live + 1) > s.c.Slots() ==> r == -ENOMEM)
      && (s.sch.q[FREE] != [] && s.c.code + s.c.data * (live + 1) <= s.c.Slots() ==> r == Inc32(s.pidMax))
  {
    ForkStart(s);
    if s.sch.q[FREE] != [] {
      Mem.ForkSucceedsIff(s.c, s.mm, s.sch.q[FREE], s.sch.cur, s.sch.q[FREE][0]);
    }
  }

  lemma ForkEagainKeeps(s: State, clk: Clock)
    requires Inv(s) && s.sch.cur != s.c.nr - 1 && s.sch.q[FREE] == []
    ensures Inv(ForkStep(s, clk).0)
  {
    ScheduleKeeps(s, ForkStep(s, clk).0, RR.Other);
  }

  /** A fork with a free PCB changes two PCBs: the parent's account, and the child. */
  lemma ForkPcbs(s: State, clk: Clock)
    requires SizedMm(s) && s.sch.q[FREE] != [] && s.sch.q[FREE][0] < s.c.nr && s.sch.q[FREE][0] != s.sch.cur
    requires Balanced(s.pcb[s.sch.cur].account)
    ensures var s', cur, child := ForkStep(s, clk).0, s.sch.cur, s.sch.q[FREE][0];
      && |s'.pcb| == s.c.nr && s'.c == s.c
      && s'.pcb == s.pcb[cur := s.pcb[cur].(account := s'.pcb[cur].account)][child := s'.pcb[child]]
      && Balanced(s'.pcb[cur].account) && Balanced(s'.pcb[child].account)
  {
  }

  /** The failed fork, spelled out: the queues, frames and live tables are as before, but the free PCB is a copy of the
      parent's, PID included. */
  lemma ForkEnomemKeeps(s: State, clk: Clock)
    requires Inv(s) && s.sch.cur != s.c.nr - 1 && s.sch.q[FREE] != []
    requires !Mem.Fork(s.c, s.mm, s.sch.cur, s.sch.q[FREE][0]).1
    ensures var s', child := ForkStep(s, clk).0, s.sch.q[FREE][0];
      && Inv(s') && s'.sch.q == s.sch.q && s'.mm.used == s.mm.used && s'.mm.mem == s.mm.mem && s'.pidMax == s.pidMax
      && s'.pcb[child].pid == s.pcb[s.sch.cur].pid
  {
    ForkStart(s);
    var child, free, s' := s.sch.q[FREE][0], s.sch.q[FREE], ForkStep(s, clk).0;
    SchedulerKeeps(s.sch, s.c.nr, RR.ForkFailed);
    Mem.FailedForkKeeps(s.c, s.mm, free, s.sch.cur, child);
    assert PidsOk(s') && PcbsOk(s') && s'.pcb[child].pid == s.pcb[s.sch.cur].pid by { ForkEnomemPcbs(s, clk); }
  }

  lemma ForkEnomemPcbs(s: State, clk: Clock)
    requires SizedMm(s) && PidsOk(s) && PcbsOk(s)
    requires var free := s.sch.q[FREE];
      free != [] && free[0] < s.c.nr - 1 && free[0] != s.sch.cur && s.pcb[s.sch.cur].dir == s.sch.cur
    requires !Mem.Fork(s.c, s.mm, s.sch.cur, s.sch.q[FREE][0]).1
    ensures var s', child := ForkStep(s, clk).0, s.sch.q[FREE][0];
      |s'.sch.q| >= 2 && |s'.pcb| == s'.c.nr == s.c.nr && PidsOk(s') && PcbsOk(s')
          && s'.pcb[child].pid == s.pcb[s.sch.cur].pid
  {
    ForkPcbs(s, clk);
    CopyKeeps(s, ForkStep(s, clk).0, s.sch.q[FREE][0]);
  }

  /** A free PCB may hold anything. */
  lemma CopyKeeps(s: State, s': State, child: nat)
    requires s.c.nr >= 2 && |s.sch.q| >= 2 && |s'.sch.q| >= 2 && |s.pcb| == s.c.nr == |s'.pcb| && PidsOk(s) && PcbsOk(s)
    requires s'.c == s.c && s'.pidMax == s.pidMax && child in s.sch.q[FREE] && child < s.c.nr - 1
    requires s'.sch.q[FREE] == s.sch.q[FREE]
    requires forall t :: 0 <= t < s.c.nr ==> Balanced(s'.pcb[t].account) && s'.pcb[t].state != StBlocked
    requires forall t :: 0 <= t < s.c.nr && t != child ==>
        s'.pcb[t].pid == s.pcb[t].pid && s'.pcb[t].dir == s.pcb[t].dir
    ensures PidsOk(s') && PcbsOk(s')
  {
  }

  lemma ForkOkKeeps(s: State, clk: Clock)
    requires Inv(s) && s.sch.cur != s.c.nr - 1 && s.sch.q[FREE] != [] && s.pidMax < INT_MAX
    requires Mem.Fork(s.c, s.mm, s.sch.cur, s.sch.q[FREE][0]).1
    ensures Inv(ForkStep(s, clk).0)
  {
    ForkStart(s);
    var child, free, s' := s.sch.q[FREE][0], s.sch.q[FREE], ForkStep(s, clk).0;
    SchedulerKeeps(s.sch, s.c.nr, RR.Fork);
    Mem.ForkSuccessKeeps(s.c, s.mm, free, s.sch.cur);
    assert PidsOk(s') && PcbsOk(s') by { ForkOkPcbs(s, clk); }
  }

  lemma ForkOkPcbs(s: State, clk: Clock)
    requires SizedMm(s) && PidsOk(s) && PcbsOk(s) && s.pidMax < INT_MAX
    requires var free := s.sch.q[FREE];
      free != [] && free[0] < s.c.nr - 1 && free[0] != s.sch.cur && s.pcb[s.sch.cur].dir == s.sch.cur
    requires Mem.Fork(s.c, s.mm, s.sch.cur, s.sch.q[FREE][0]).1
    ensures var s' := ForkStep(s, clk).0; |s'.sch.q| >= 2 && |s'.pcb| == s'.c.nr >= 2 && PidsOk(s') && PcbsOk(s')
  {
    ForkPcbs(s, clk);
    NewbornKeeps(s, ForkStep(s, clk).0, s.sch.q[FREE][0]);
  }

  /** A PCB that joins the live ones with a PID above all of theirs. */
  lemma NewbornKeeps(s: State, s': State, child: nat)
    requires s.c.nr >= 2 && |s.sch.q| >= 2 && |s'.sch.q| >= 2 && |s.pcb| == s.c.nr == |s'.pcb| && PidsOk(s) && PcbsOk(s)
    requires s'.c == s.c && s.pidMax < INT_MAX && s'.pidMax == s.pidMax + 1 && child < s.c.nr - 1
    requires s.sch.q[FREE] != [] && s.sch.q[FREE][0] == child && s'.sch.q[FREE] == s.sch.q[FREE][1..]
    requires s'.pcb[child].pid == s'.pidMax && s'.pcb[child].dir == child
    requires forall t :: 0 <= t < s.c.nr ==> Balanced(s'.pcb[t].account) && s'.pcb[t].state != StBlocked
    requires forall t :: 0 <= t < s.c.nr && t != child ==>
        s'.pcb[t].pid == s.pcb[t].pid && s'.pcb[t].dir == s.pcb[t].dir
    ensures PidsOk(s') && PcbsOk(s')
  {
    assert forall t :: Mem.Live(s.c, s'.sch.q[FREE], t) ==> Mem.Live(s.c, s.sch.q[FREE], t) || t == child;
    assert forall t :: t !in s'.sch.q[FREE] ==> t !in s.sch.q[FREE] || t == child;
  }

  /** The invariant is kept by every step of the kernel. */
  lemma NextKeepsInv(s: State, e: Step)
    requires Inv(s) && Enabled(s, e)
    ensures Inv(Next(s, e))
  {
    match e
    case Fork(clk) => ForkStepKeeps(s, clk);
    case Exit(clk) => ExitStepKeeps(s, clk);
    case Block(b, clk) => BlockKeeps(s, b, clk);
    case Unblock(b, i, clk) => UnblockKeeps(s, b, i, clk);
    case Interrupt(at) => InterruptKeeps(s, at);
    case Tick(clk) => TickKeeps(s, clk);
    case EnterKernel(at) => ChargeKeeps(s, UserToKernel(s.pcb[s.sch.cur].account, at));
    case LeaveKernel(at) => ChargeKeeps(s, KernelToUser(s.pcb[s.sch.cur].account, at));
    case UserWrite(va, b) => StoreKeeps(s, va, b);
    case KernelWrite(va, b) => StoreKeeps(s, va, b);
    case TlbFill(page) => TlbStepKeeps(s, page);
    case TlbEvict(page) => TlbStepKeeps(s, page);
  }

  lemma ForkStepKeeps(s: State, clk: Clock)
    requires Inv(s) && s.sch.cur != s.c.nr - 1 && s.pidMax < INT_MAX
    ensures Inv(ForkStep(s, clk).0)
  {
    var free := s.sch.q[FREE];
    ForkStart(s);
    if free == [] {
      ForkEagainKeeps(s, clk);
    } else if Mem.Fork(s.c, s.mm, s.sch.cur, free[0]).1 {
      ForkOkKeeps(s, clk);
    } else {
      ForkEnomemKeeps(s, clk);
    }
  }

  lemma StoreKeeps(s: State, va: nat, b: Mem.Byte)
    requires Inv(s) && Mem.Reaches(s.mm, va)
    ensures Inv(s.(mm := Mem.WriteByte(s.mm, va, b)))
  {
    Mem.WriteKeeps(s.c, s.mm, s.sch.q[FREE], va, b);
    AccessKeeps(s, Mem.WriteByte(s.mm, va, b));
  }

  lemma TlbStepKeeps(s: State, page: nat)
    requires Inv(s)
    ensures Inv(s.(mm := Mem.TlbEvict(s.mm, page)))
    ensures Mem.Walk(s.mm.pt[s.mm.cr3], page).Some? ==> Inv(s.(mm := Mem.TlbFill(s.mm, page)))
  {
    Mem.TlbKeeps(s.c, s.mm, s.sch.q[FREE], page);
    AccessKeeps(s, Mem.TlbEvict(s.mm, page));
    if Mem.Walk(s.mm.pt[s.mm.cr3], page).Some? { AccessKeeps(s, Mem.TlbFill(s.mm, page)); }
  }

  /** The running task's account may change to any balanced one. */
  lemma ChargeKeeps(s: State, a: Account)
    requires Inv(s) && Balanced(a)
    ensures Inv(Charge(s, s.sch.cur, a))
  {
    ScheduleKeeps(s, Charge(s, s.sch.cur, a), RR.Other);
  }

  /** act_ticks_user2kernel and act_ticks_kernel2user around a system call that does not block. */
  function Called(s: State, clk: Clock): State
    requires s.sch.cur < |s.pcb|
  {
    Charge(s, s.sch.cur, KernelToUser(UserToKernel(s.pcb[s.sch.cur].account, clk.entry), clk.back))
  }

  /** ... and of a call that got no further than its entry. */
  function Entered(s: State, clk: Clock): State
    requires s.sch.cur < |s.pcb|
  {
    Charge(s, s.sch.cur, UserToKernel(s.pcb[s.sch.cur].account, clk.entry))
  }

  /** A system call that answers in user memory: accounting -- of the whole call or only of its entry -- bytes, and
      whatever the accesses did to the TLB. */
  function Answering(s: State, clk: Clock, whole: bool, mem: seq<seq<Mem.Byte>>, tlb: map<nat, nat>): State
    requires s.sch.cur < |s.pcb|
  {
    (if whole then Called(s, clk) else Entered(s, clk)).(mm := s.mm.(mem := mem, tlb := tlb))
  }

  lemma AnswerKeeps(s: State, clk: Clock, whole: bool, mem: seq<seq<Mem.Byte>>, tlb: map<nat, nat>)
    requires Inv(s) && |mem| == |s.mm.mem| && forall f :: 0 <= f < |mem| ==> |mem[f]| == |s.mm.mem[f]|
    requires Mem.TlbCoherent(s.mm.(tlb := tlb))
    ensures Inv(Answering(s, clk, whole, mem, tlb))
  {
    var cur := s.sch.cur;
    var entered := UserToKernel(s.pcb[cur].account, clk.entry);
    var a := if whole then KernelToUser(entered, clk.back) else entered;
    ChargeKeeps(s, a);
    Mem.BytesKeep(s.c, s.mm, s.sch.q[FREE], mem, tlb);
    AccessKeeps(Charge(s, cur, a), s.mm.(mem := mem, tlb := tlb));
  }

  /** A step of the running task that leaves the kernel's own data alone. */
  lemma AccessKeeps(s: State, mm: Mem.Mm)
    requires Inv(s) && Mem.MmOk(s.c, mm, s.sch.q[FREE]) && mm.cr3 == s.mm.cr3
    ensures Inv(s.(mm := mm))
  {
  }
}
