/** The account of a process over a whole run, entry by entry: the split into user, system, ready and blocked time holds
    of what the kernel does. */
module Lives {
  import opened Params
  import opened TaskQueues
  import opened Ticks
  import opened Kernel
  import opened KernelRuns
  import opened KernelTheorems
  import Mem = Memory
  import RR = RoundRobin
  import ReadyLine

  // ---------------------------------------------------------------- what each step enters in an account

  /** The entries of a task that gets the processor. */
  function ResumeEntries(from: Resume, isIdle: bool, clk: Clock): seq<Entry>
  {
    match from
    case FromFork => if isIdle then [] else [Entry(System, clk.arrive)]
    case FromClock => [Entry(Ready, clk.arrive), Entry(System, clk.back)]
    case FromConsole => [Entry(Ready, clk.arrive)]
    case FromCall => [Entry(Ready, clk.arrive)]
  }

  /** The entries of a switch to task `next`: of the one that leaves, then of the one that arrives. */
  function SwitchEntries(s: State, next: nat, from: Resume, clk: Clock, t: nat): seq<Entry>
    requires t < |s.pcb|
  {
    (if t == s.sch.cur then [Entry(System, clk.leave)] else [])
    + (if t == next then ResumeEntries(if t == s.sch.cur then from else s.pcb[t].resume, t == s.c.nr - 1, clk) else [])
  }

  function When(condition: bool, kind: Kind, at: Reads): seq<Entry>
  {
    if condition then [Entry(kind, at)] else []
  }

  ghost function StepEntries(s: State, e: Step, t: nat): seq<Entry>
    requires Inv(s) && Enabled(s, e) && t < s.c.nr
  {
    var mine, next := t == s.sch.cur, Next(s, e).sch.cur;
    match e
    case Fork(clk) => When(mine, User, clk.entry) + When(mine, System, clk.back)
    case Exit(clk) => When(mine, User, clk.entry) + SwitchEntries(s, next, FromCall, clk, t)
    case Block(_, clk) => When(mine, Blocking, clk.event) + SwitchEntries(s, next, FromCall, clk, t)
    case Unblock(b, i, clk) =>
      When(t == s.sch.q[b][i], Blocked, clk.event)
      + (if s.sch.cq <= 0 then SwitchEntries(s, next, if InClock(s) then FromConsole else FromCall, clk, t) else [])
    case Interrupt(at) => When(mine, User, at)
    case Tick(clk) =>
      if Dec32(s.sch.cq) > 0 then When(mine, System, clk.back)
      else When(mine && t == s.c.nr - 1, System, clk.event) + SwitchEntries(s, next, FromClock, clk, t)
    case EnterKernel(at) => When(mine, User, at)
    case LeaveKernel(at) => When(mine, System, at)
    case _ => []
  }

  lemma LifeOne(a: Account, e: Entry)
    ensures Life(a, [e]) == Apply(a, e)
  {
    assert [e][..0] == [];
  }

  lemma {:induction false} LifeConcat(a: Account, x: seq<Entry>, y: seq<Entry>)
    ensures Life(a, x + y) == Life(Life(a, x), y)
  {
    if y == [] {
      assert x + y == x;
    } else {
      var n := |y| - 1;
      assert (x + y)[..|x + y| - 1] == x + y[..n];
      LifeConcat(a, x, y[..n]);
    }
  }

  lemma ResumedLife(p: Pcb, isIdle: bool, clk: Clock)
    ensures Resumed(p, isIdle, clk).account == Life(p.account, ResumeEntries(p.resume, isIdle, clk))
  {
    var arrive := if p.resume.FromFork? then Entry(System, clk.arrive) else Entry(Ready, clk.arrive);
    LifeOne(p.account, arrive);
    if p.resume.FromClock? {
      LifeOne(Life(p.account, [arrive]), Entry(System, clk.back));
      LifeConcat(p.account, [arrive], [Entry(System, clk.back)]);
      assert [arrive] + [Entry(System, clk.back)] == [arrive, Entry(System, clk.back)];
    }
  }

  lemma SwitchLife(s: State, sch: RR.Sched, from: Resume, clk: Clock, t: nat)
    requires s.sch.cur < |s.pcb| && sch.cur < |s.pcb| && t < |s.pcb|
    ensures var s' := TaskSwitch(s, sch, from, clk);
      |s'.pcb| == |s.pcb| && s'.pcb[t].account == Life(s.pcb[t].account, SwitchEntries(s, sch.cur, from, clk, t))
  {
    var p, left := s.pcb[t], if t == s.sch.cur then [Entry(System, clk.leave)] else [];
    LifeOne(p.account, Entry(System, clk.leave));
    var gone := if t == s.sch.cur then p.(account := KernelToUser(p.account, clk.leave), state := StReady,
        resume := from) else p;
    assert gone.account == Life(p.account, left);
    ResumedLife(gone, t == s.c.nr - 1, clk);
    LifeConcat(p.account, left, if t == sch.cur then ResumeEntries(gone.resume, t == s.c.nr - 1, clk) else []);
  }

  /** A charge to one task and then a switch. */
  lemma ChargeThenSwitch(s: State, s1: State, sch: RR.Sched, from: Resume, clk: Clock, t: nat, first: seq<Entry>)
    requires s.sch.cur < |s.pcb| == |s1.pcb| && sch.cur < |s.pcb| && t < |s.pcb| && s1.sch.cur == s.sch.cur
      && s1.c == s.c
    requires s1.pcb[t].account == Life(s.pcb[t].account, first) && s1.pcb[t].resume == s.pcb[t].resume
    ensures var s' := TaskSwitch(s1, sch, from, clk);
      |s'.pcb| == |s.pcb| && s'.pcb[t].account == Life(s.pcb[t].account,
          first + SwitchEntries(s, sch.cur, from, clk, t))
  {
    SwitchLife(s1, sch, from, clk, t);
    LifeConcat(s.pcb[t].account, first, SwitchEntries(s, sch.cur, from, clk, t));
  }

  lemma TickLife(s: State, clk: Clock, t: nat)
    requires Inv(s) && InClock(s) && t < s.c.nr
    ensures |TickStep(s, clk).pcb| == s.c.nr
    ensures TickStep(s, clk).pcb[t].account == Life(s.pcb[t].account, StepEntries(s, Tick(clk), t))
  {
    var cur, p := s.sch.cur, s.pcb[s.sch.cur];
    RunningPid(s);
    if Dec32(s.sch.cq) > 0 {
      LifeOne(p.account, Entry(System, clk.back));
    } else {
      var e := RR.Tick(p.pid != 0);
      assert RR.Next(s.sch, s.c.nr, e).cur < s.c.nr by { RR.NextKeepsPartition(s.sch, s.c.nr, e); }
      var s1 := if e.requeue then s else Charge(s, cur, KernelToUser(p.account, clk.event));
      LifeOne(p.account, Entry(System, clk.event));
      ChargeThenSwitch(s, s1, RR.Next(s.sch, s.c.nr, e), FromClock, clk, t,
                       When(t == cur && t == s.c.nr - 1, System, clk.event));
    }
  }

  lemma ExitLife(s: State, clk: Clock, t: nat)
    requires Inv(s) && Enabled(s, Exit(clk)) && t < s.c.nr
    ensures |ExitStep(s, clk).pcb| == s.c.nr
    ensures ExitStep(s, clk).pcb[t].account == Life(s.pcb[t].account, StepEntries(s, Exit(clk), t))
  {
    var cur, sch := s.sch.cur, RR.Next(s.sch, s.c.nr, RR.Exit);
    assert sch.cur < s.c.nr by { RR.NextKeepsPartition(s.sch, s.c.nr, RR.Exit); }
    var s1 := Charge(s, cur, UserToKernel(s.pcb[cur].account, clk.entry));
    var s2 := s1.(mm := Mem.Exit(s.c, s.mm, s.pcb[cur].dir), pcb := s1.pcb[cur := s1.pcb[cur].(pid := -1)]);
    LifeOne(s.pcb[cur].account, Entry(User, clk.entry));
    ChargeThenSwitch(s, s2, sch, FromCall, clk, t, When(t == cur, User, clk.entry));
  }

  lemma BlockLife(s: State, b: nat, clk: Clock, t: nat)
    requires Inv(s) && Enabled(s, Block(b, clk)) && t < s.c.nr
    ensures |BlockStep(s, b, clk).pcb| == s.c.nr
    ensures BlockStep(s, b, clk).pcb[t].account == Life(s.pcb[t].account, StepEntries(s, Block(b, clk), t))
  {
    var cur, sch := s.sch.cur, RR.Next(s.sch, s.c.nr, RR.Block(b));
    assert sch.cur < s.c.nr by { RR.NextKeepsPartition(s.sch, s.c.nr, RR.Block(b)); }
    var blocked := s.pcb[cur].(account := EnterBlocked(s.pcb[cur].account, clk.event), state := StBlocked);
    LifeOne(s.pcb[cur].account, Entry(Blocking, clk.event));
    ChargeThenSwitch(s, s.(pcb := s.pcb[cur := blocked]), sch, FromCall, clk, t, When(t == cur, Blocking, clk.event));
  }

  lemma UnblockLife(s: State, b: nat, i: nat, clk: Clock, t: nat)
    requires Inv(s) && Enabled(s, Unblock(b, i, clk)) && t < s.c.nr
    ensures |UnblockStep(s, b, i, clk).pcb| == s.c.nr
    ensures UnblockStep(s, b, i, clk).pcb[t].account == Life(s.pcb[t].account, StepEntries(s, Unblock(b, i, clk), t))
  {
    var w, sch := s.sch.q[b][i], RR.Next(s.sch, s.c.nr, RR.Unblock(b, i));
    assert sch.cur < s.c.nr by { RR.NextKeepsPartition(s.sch, s.c.nr, RR.Unblock(b, i)); }
    var s1 := s.(pcb := s.pcb[w := s.pcb[w].(account := LeaveBlocked(s.pcb[w].account, clk.event), state := StReady)]);
    var first := When(t == w, Blocked, clk.event);
    LifeOne(s.pcb[w].account, Entry(Blocked, clk.event));
    if s.sch.cq <= 0 {
      ChargeThenSwitch(s, s1, sch, if InClock(s) then FromConsole else FromCall, clk, t, first);
    } else {
      assert first + [] == first;
    }
  }

  lemma ForkLife(s: State, clk: Clock, t: nat)
    requires Inv(s) && Enabled(s, Fork(clk)) && t < s.c.nr && !(s.sch.q[FREE] != [] && t == s.sch.q[FREE][0])
    ensures |ForkStep(s, clk).0.pcb| == s.c.nr
    ensures ForkStep(s, clk).0.pcb[t].account == Life(s.pcb[t].account, StepEntries(s, Fork(clk), t))
  {
    ForkStart(s);
    var a := s.pcb[s.sch.cur].account;
    LifeOne(a, Entry(User, clk.entry));
    LifeOne(UserToKernel(a, clk.entry), Entry(System, clk.back));
    LifeConcat(a, [Entry(User, clk.entry)], [Entry(System, clk.back)]);
  }

  /** The PCB is taken by a fork. */
  ghost predicate Taken(s: State, e: Step, t: nat)
    requires Inv(s)
  {
    e.Fork? && s.sch.q[FREE] != [] && t == s.sch.q[FREE][0]
  }

  lemma StepLife(s: State, e: Step, t: nat)
    requires Inv(s) && Enabled(s, e) && t < s.c.nr && !Taken(s, e, t)
    ensures |Next(s, e).pcb| == s.c.nr && Next(s, e).pcb[t].account == Life(s.pcb[t].account, StepEntries(s, e, t))
  {
    var a := s.pcb[s.sch.cur].account;
    match e
    case Fork(clk) => ForkLife(s, clk, t);
    case Exit(clk) => ExitLife(s, clk, t);
    case Block(b, clk) => BlockLife(s, b, clk, t);
    case Unblock(b, i, clk) => UnblockLife(s, b, i, clk, t);
    case Interrupt(at) => LifeOne(a, Entry(User, at));
    case Tick(clk) => TickLife(s, clk, t);
    case EnterKernel(at) => LifeOne(a, Entry(User, at));
    case LeaveKernel(at) => LifeOne(a, Entry(System, at));
    case _ =>
  }

  // ---------------------------------------------------------------- over runs

  /** Everything a run enters in the account of PCB t, in order. */
  ghost function RunEntries(s: State, es: seq<Step>, t: nat): seq<Entry>
    requires Inv(s) && Runs(s, es) && t < s.c.nr
    decreases |es|
  {
    if es == [] then []
    else
      RunHead(s, es);
      SameConfig(s, es[0]);
      StepEntries(s, es[0], t) + RunEntries(Next(s, es[0]), es[1..], t)
  }

  lemma SameConfig(s: State, e: Step)
    requires Inv(s) && Enabled(s, e)
    ensures Next(s, e).c == s.c
  {
    PidAfter(s, e, 0);
  }

  /** A process that is still there: live now and at the end, with the same PID. */
  ghost predicate Survives(s: State, es: seq<Step>, t: int)
    requires Inv(s) && Runs(s, es)
  {
    IsLive(s, t) && IsLive(After(s, es), t) && After(s, es).pcb[t].pid == s.pcb[t].pid
  }

  /** It was then there all the time. */
  lemma SurvivesRest(s: State, es: seq<Step>, t: nat)
    requires Inv(s) && Runs(s, es) && Survives(s, es, t) && es != []
    ensures Enabled(s, es[0]) && Inv(Next(s, es[0])) && Runs(Next(s, es[0]), es[1..])
    ensures Survives(Next(s, es[0]), es[1..], t) && !Taken(s, es[0], t)
  {
    RunHead(s, es);
    StepPids(s, es[0]);
    PidAfter(s, es[0], t);
    PidsNeverReused(Next(s, es[0]), es[1..], t);
  }

  /** The account of a process over any run it survives is its account at the start with the entries of the run. */
  lemma {:induction false} LifeOverRun(s: State, es: seq<Step>, t: nat)
    requires Inv(s) && Runs(s, es) && Survives(s, es, t)
    ensures After(s, es).pcb[t].account == Life(s.pcb[t].account, RunEntries(s, es, t))
    decreases |es|
  {
    if es != [] {
      SurvivesRest(s, es, t);
      RunHead(s, es);
      StepLife(s, es[0], t);
      LifeOverRun(Next(s, es[0]), es[1..], t);
      LifeConcat(s.pcb[t].account, StepEntries(s, es[0], t), RunEntries(Next(s, es[0]), es[1..], t));
    }
  }

  /** The split of BucketsSplitTheLife for processes of the kernel: from its birth in a fork, over every run it
      survives, each bucket of a process holds exactly the intervals that the kernel entered in it. */
  lemma BucketsOverRun(s: State, clk: Clock, born: State, es: seq<Step>, t: nat)
    requires Inv(s) && Enabled(s, Fork(clk)) && Taken(s, Fork(clk), t) && ForkStep(s, clk).1 != -ENOMEM
    requires born == Next(s, Fork(clk)) && Inv(born) && Runs(born, es) && Survives(born, es, t)
    ensures var a, h, now := After(born, es).pcb[t].account, RunEntries(born, es, t), clk.event.first;
      && Holds(a, Spent(now, h, {User}), Spent(now, h, {Ready}), Spent(now, h, {Blocked}),
          Spent(now, h, {System, Blocking}))
      && a.led.inherited == s.pcb[s.sch.cur].account.st.ready && a.led.birth == now
  {
    BornAccount(s, clk, t);
    LifeOverRun(born, es, t);
    BucketsSplitTheLife(s.pcb[s.sch.cur].account.st, clk.event.first, s.c.quantum, RunEntries(born, es, t));
  }

  lemma BornAccount(s: State, clk: Clock, t: nat)
    requires Inv(s) && Enabled(s, Fork(clk)) && Taken(s, Fork(clk), t) && ForkStep(s, clk).1 != -ENOMEM
    ensures t < |ForkStep(s, clk).0.pcb|
    ensures ForkStep(s, clk).0.pcb[t].account == Birth(s.pcb[s.sch.cur].account.st, clk.event.first, s.c.quantum)
  {
    ForkStart(s);
  }

  // ---------------------------------------------------------------- a new process

  /** What a successful fork leaves in the PCBs: the child's times and switches start at zero -- but for the ready time,
      which is the parent's -- at the reading of the fork, with the build's first quantum as remaining ticks and the
      parent's quantum for the scheduler. The parent is charged its time and nobody else is touched. */
  lemma NewProcess(s: State, clk: Clock)
    requires Inv(s) && Enabled(s, Fork(clk)) && s.sch.q[FREE] != [] && !NoRoom(s)
    ensures var s', child, parent := ForkStep(s, clk).0, s.sch.q[FREE][0], s.sch.cur;
      && child < |s'.pcb| == |s.pcb| && |s'.sch.quantum| == s.c.nr && parent < s.c.nr
      && s'.pcb[child].account.st
         == Stats(0, 0, 0, s.pcb[parent].account.st.ready, clk.event.first, 0, s.c.quantum)
      && s'.pcb[child].pid == s.pidMax + 1 && s'.pcb[child].dir == child && s'.pcb[child].state == StReady
      && s'.pcb[child].resume == FromFork && s'.sch.quantum[child] == s.sch.quantum[parent]
      && (forall t :: 0 <= t < s.c.nr && t != child && t != parent ==> s'.pcb[t] == s.pcb[t])
      && CallerCharged(s.pcb[parent], s'.pcb[parent], clk)
  {
    EnomemIff(s, clk);
    ForkStart(s);
    ForkedChild(s, clk);
    CallerAccount(s.pcb[s.sch.cur], clk);
  }

  lemma CallerAccount(p: Pcb, clk: Clock)
    ensures CallerCharged(p, p.(account := KernelToUser(UserToKernel(p.account, clk.entry), clk.back)), clk)
  {
    OneBucket(p.account, Entry(User, clk.entry));
    OneBucket(UserToKernel(p.account, clk.entry), Entry(System, clk.back));
  }

  ghost predicate CallerCharged(p: Pcb, p': Pcb, clk: Clock)
  {
    var s, s' := p.account.st, p'.account.st;
    && p' == p.(account := p'.account)
    && Is(s'.user, s.user + clk.entry.first - s.elapsed) && Is(s'.system, s.system + clk.back.first - clk.entry.second)
    && s'.ready == s.ready && s'.blocked == s.blocked && s'.trans == s.trans && s'.remaining == s.remaining
    && s'.elapsed == clk.back.second
  }

  /** Any other system call that does not block charges its caller in the same way, and nobody else. */
  lemma CallCharged(s: State, clk: Clock)
    requires Inv(s)
    ensures var s' := Called(s, clk);
      && |s'.pcb| == |s.pcb| && s' == s.(pcb := s'.pcb) && CallerCharged(s.pcb[s.sch.cur], s'.pcb[s.sch.cur], clk)
      && forall t :: 0 <= t < |s.pcb| && t != s.sch.cur ==> s'.pcb[t] == s.pcb[t]
  {
    CallerAccount(s.pcb[s.sch.cur], clk);
  }

  lemma ForkedChild(s: State, clk: Clock)
    requires SizedMm(s) && s.sch.q[FREE] != [] && s.sch.q[FREE][0] < s.c.nr && s.sch.q[FREE][0] != s.sch.cur
    requires ForkStep(s, clk).1 != -ENOMEM && s.pidMax < INT_MAX && 0 <= s.c.quantum <= INT_MAX
    ensures var s', child, parent := ForkStep(s, clk).0, s.sch.q[FREE][0], s.sch.cur;
      && |s'.pcb| == |s.pcb| && |s'.sch.quantum| == s.c.nr
      && s'.pcb[child].account.st
         == Stats(0, 0, 0, s.pcb[parent].account.st.ready, clk.event.first, 0, s.c.quantum)
      && s'.pcb[child].pid == s.pidMax + 1 && s'.pcb[child].dir == child && s'.pcb[child].state == StReady
      && s'.pcb[child].resume == FromFork && s'.sch.quantum[child] == s.sch.quantum[parent]
      && (forall t :: 0 <= t < s.c.nr && t != child && t != parent ==> s'.pcb[t] == s.pcb[t])
      && s'.pcb[parent] == s.pcb[parent].(account :=
           KernelToUser(UserToKernel(s.pcb[parent].account, clk.entry), clk.back))
  {
  }

  // ---------------------------------------------------------------- switches and discarded time

  /** The step gives `t` the processor, be it to a task that has just left it. */
  ghost predicate Dispatches(s: State, e: Step, t: nat)
    requires Inv(s) && Enabled(s, e)
  {
    ReadyLine.Chooses(s.sch, EventOf(s, e)) && Next(s, e).sch.cur == t
  }

  /** A process that has not had its first turn. */
  predicate Newborn(s: State, t: nat)
    requires t < |s.pcb|
  {
    t != s.sch.cur && s.pcb[t].resume == FromFork
  }

  /** What a step does to the counters of a PCB: blocking discards the system time that the blocking task had; a
      dispatch that is not the first counts one switch; nothing else does either. */
  ghost predicate Counted(s: State, s': State, t: nat, blocks: bool, dispatched: bool)
    requires t < |s.pcb|
  {
    && |s'.pcb| == |s.pcb|
    && var a, a' := s.pcb[t].account, s'.pcb[t].account;
       && a'.led.discarded == a.led.discarded + (if blocks then a.st.system else 0)
       && a'.st.trans == (if dispatched && !Newborn(s, t) then (a.st.trans + 1) % WORD else a.st.trans)
       && a'.st.remaining == a.st.remaining
       && (Newborn(s', t) <==> Newborn(s, t) && !dispatched)
  }

  lemma SwitchCounters(s: State, sch: RR.Sched, from: Resume, clk: Clock, t: nat)
    requires s.sch.cur < |s.pcb| && sch.cur < |s.pcb| && t < |s.pcb| && from != FromFork
    ensures Counted(s, TaskSwitch(s, sch, from, clk), t, false, t == sch.cur)
  {
  }

  /** The same after some other change that leaves alone what it does not mention. */
  lemma ThenSwitch(s: State, s1: State, sch: RR.Sched, from: Resume, clk: Clock, t: nat, blocks: bool)
    requires s.sch.cur < |s.pcb| == |s1.pcb| && sch.cur < |s.pcb| && t < |s.pcb| && from != FromFork
    requires s1.sch.cur == s.sch.cur && s1.pcb[t].resume == s.pcb[t].resume
    requires Counted(s, s1, t, blocks, false)
    ensures Counted(s, TaskSwitch(s1, sch, from, clk), t, blocks, t == sch.cur)
  {
    SwitchCounters(s1, sch, from, clk, t);
  }

  lemma TickCounters(s: State, clk: Clock, t: nat)
    requires Inv(s) && InClock(s) && t < s.c.nr
    ensures var s' := TickStep(s, clk);
      Counted(s, s', t, false, ReadyLine.Chooses(s.sch, RR.Tick(s.sch.cur != s.c.nr - 1)) && s'.sch.cur == t)
  {
    RunningPid(s);
    var e := RR.Tick(s.pcb[s.sch.cur].pid != 0);
    var sch := RR.Next(s.sch, s.c.nr, e);
    assert sch.cur < s.c.nr by { RR.NextKeepsPartition(s.sch, s.c.nr, e); }
    if Dec32(s.sch.cq) <= 0 {
      var p := s.pcb[s.sch.cur];
      var s1 := if e.requeue then s else Charge(s, s.sch.cur, KernelToUser(p.account, clk.event));
      ThenSwitch(s, s1, sch, FromClock, clk, t, false);
    }
  }

  lemma ExitCounters(s: State, clk: Clock, t: nat)
    requires Inv(s) && Enabled(s, Exit(clk)) && t < s.c.nr
    ensures var s' := ExitStep(s, clk); Counted(s, s', t, false, s'.sch.cur == t)
  {
    var cur, sch := s.sch.cur, RR.Next(s.sch, s.c.nr, RR.Exit);
    assert sch.cur < s.c.nr by { RR.NextKeepsPartition(s.sch, s.c.nr, RR.Exit); }
    var s1 := Charge(s, cur, UserToKernel(s.pcb[cur].account, clk.entry));
    var s2 := s1.(mm := Mem.Exit(s.c, s.mm, s.pcb[cur].dir), pcb := s1.pcb[cur := s1.pcb[cur].(pid := -1)]);
    ThenSwitch(s, s2, sch, FromCall, clk, t, false);
  }

  lemma BlockCounters(s: State, b: nat, clk: Clock, t: nat)
    requires Inv(s) && Enabled(s, Block(b, clk)) && t < s.c.nr
    ensures var s' := BlockStep(s, b, clk); Counted(s, s', t, t == s.sch.cur, s'.sch.cur == t)
  {
    var cur, sch := s.sch.cur, RR.Next(s.sch, s.c.nr, RR.Block(b));
    assert sch.cur < s.c.nr by { RR.NextKeepsPartition(s.sch, s.c.nr, RR.Block(b)); }
    var blocked := s.pcb[cur].(account := EnterBlocked(s.pcb[cur].account, clk.event), state := StBlocked);
    ThenSwitch(s, s.(pcb := s.pcb[cur := blocked]), sch, FromCall, clk, t, t == cur);
  }

  lemma UnblockCounters(s: State, b: nat, i: nat, clk: Clock, t: nat)
    requires Inv(s) && Enabled(s, Unblock(b, i, clk)) && t < s.c.nr
    ensures var s' := UnblockStep(s, b, i, clk); Counted(s, s', t, false, s.sch.cq <= 0 && s'.sch.cur == t)
  {
    var w, sch := s.sch.q[b][i], RR.Next(s.sch, s.c.nr, RR.Unblock(b, i));
    assert sch.cur < s.c.nr by { RR.NextKeepsPartition(s.sch, s.c.nr, RR.Unblock(b, i)); }
    var s1 := s.(pcb := s.pcb[w := s.pcb[w].(account := LeaveBlocked(s.pcb[w].account, clk.event), state := StReady)]);
    ThenSwitch(s, s1, sch, if InClock(s) then FromConsole else FromCall, clk, t, false);
  }

  lemma ForkCounters(s: State, clk: Clock, t: nat)
    requires SizedMm(s) && t < s.c.nr && (s.sch.q[FREE] != [] ==>
        s.sch.q[FREE][0] != t && s.sch.q[FREE][0] != s.sch.cur)
    ensures Counted(s, ForkStep(s, clk).0, t, false, false)
  {
  }

  /** The steps in which nobody is chosen. */
  lemma QuietCounters(s: State, e: Step, s': State, t: nat)
    requires Inv(s) && Enabled(s, e) && t < s.c.nr && s' == Next(s, e)
    requires !e.Fork? && !e.Exit? && !e.Block? && !e.Unblock? && !e.Tick?
    ensures Counted(s, s', t, false, false)
  {
  }

  lemma DispatchesIs(s: State, e: Step, t: nat)
    requires Inv(s) && Enabled(s, e)
    ensures var chooses := e.Exit? || e.Block? || (e.Unblock? && s.sch.cq <= 0)
                           || (e.Tick? && ReadyLine.Chooses(s.sch, RR.Tick(s.sch.cur != s.c.nr - 1)));
      Dispatches(s, e, t) <==> chooses && Next(s, e).sch.cur == t
  {
  }

  lemma StepCounters(s: State, e: Step, s': State, t: nat, d: bool)
    requires Inv(s) && Enabled(s, e) && t < s.c.nr && !Taken(s, e, t) && s' == Next(s, e) && d == Dispatches(s, e, t)
    ensures Counted(s, s', t, e.Block? && t == s.sch.cur, d)
  {
    DispatchesIs(s, e, t);
    if e.Fork? {
      ForkStart(s);
      ForkCounters(s, e.clk, t);
    } else if e.Exit? {
      ExitCounters(s, e.clk, t);
    } else if e.Block? {
      BlockCounters(s, e.queue, e.clk, t);
    } else if e.Unblock? {
      UnblockCounters(s, e.queue, e.index, e.clk, t);
    } else if e.Tick? {
      TickCounters(s, e.clk, t);
    } else {
      QuietCounters(s, e, s', t);
    }
  }

  /** How often the run gives `t` the processor. */
  ghost function Turns(s: State, es: seq<Step>, t: nat): nat
    requires Inv(s) && Runs(s, es)
    decreases |es|
  {
    if es == [] then 0
    else
      RunHead(s, es);
      (if Dispatches(s, es[0], t) then 1 else 0) + Turns(Next(s, es[0]), es[1..], t)
  }

  /** The system time that `t` has each time it blocks, summed up. */
  ghost function Losses(s: State, es: seq<Step>, t: nat): int
    requires Inv(s) && Runs(s, es) && t < s.c.nr
    decreases |es|
  {
    if es == [] then 0
    else
      RunHead(s, es);
      SameConfig(s, es[0]);
      (if es[0].Block? && t == s.sch.cur then s.pcb[t].account.st.system else 0) + Losses(Next(s, es[0]), es[1..], t)
  }

  /** The switches to count for n turns of a process. */
  function Switches(newborn: bool, n: nat): nat
  {
    if newborn && n > 0 then n - 1 else n
  }

  lemma SwitchesAdd(x: word, x': word, x'': word, newborn: bool, dispatched: bool, n: nat)
    requires x' == if dispatched && !newborn then (x + 1) % WORD else x
    requires Is(x'', x' + Switches(newborn && !dispatched, n))
    ensures Is(x'', x + Switches(newborn, n + if dispatched then 1 else 0))
  {
  }

  /** What a run has done to the counters of a process. */
  ghost predicate CountersAfter(a: Account, a': Account, newborn: bool, turns: nat, losses: int)
  {
    && Is(a'.st.trans, a.st.trans + Switches(newborn, turns))
    && a'.st.remaining == a.st.remaining && a'.led.discarded == a.led.discarded + losses
  }

  /** Over every run that a process survives: total_trans grows by the number of its turns, not counting its very first
      one; remaining_ticks never changes; and the time discarded is the system time it had at each of its blocks, no
      more. */
  lemma {:induction false} CountersOverRun(s: State, es: seq<Step>, t: nat)
    requires Inv(s) && Runs(s, es) && Survives(s, es, t)
    ensures CountersAfter(s.pcb[t].account, After(s, es).pcb[t].account, Newborn(s, t), Turns(s, es, t),
      Losses(s, es, t))
    decreases |es|
  {
    if es != [] {
      SurvivesRest(s, es, t);
      RunHead(s, es);
      StepCounters(s, es[0], Next(s, es[0]), t, Dispatches(s, es[0], t));
      CountersOverRun(Next(s, es[0]), es[1..], t);
      TurnsCons(s, es, t);
      CountersJoin(s, Next(s, es[0]), t, es[0].Block? && t == s.sch.cur, Dispatches(s, es[0], t),
                   After(s, es).pcb[t].account, Turns(Next(s, es[0]), es[1..], t), Turns(s, es, t),
                   Losses(Next(s, es[0]), es[1..], t), Losses(s, es, t));
    } else {
      CountersAtRest(s, t);
    }
  }

  lemma CountersAtRest(s: State, t: nat)
    requires Inv(s) && t < s.c.nr
    ensures CountersAfter(s.pcb[t].account, s.pcb[t].account, Newborn(s, t), Turns(s, [], t), Losses(s, [], t))
  {
  }

  lemma TurnsCons(s: State, es: seq<Step>, t: nat)
    requires Inv(s) && Runs(s, es) && t < s.c.nr && es != []
    ensures Enabled(s, es[0]) && Inv(Next(s, es[0])) && Runs(Next(s, es[0]), es[1..]) && t < Next(s, es[0]).c.nr
    ensures Turns(s, es, t) == Turns(Next(s, es[0]), es[1..], t) + if Dispatches(s, es[0], t) then 1 else 0
    ensures Losses(s, es, t) == Losses(Next(s, es[0]), es[1..], t)
                                + if es[0].Block? && t == s.sch.cur then s.pcb[t].account.st.system else 0
  {
    RunHead(s, es);
    SameConfig(s, es[0]);
  }

  /** One step and then a run. */
  lemma CountersJoin(s: State, s1: State, t: nat, blocks: bool, d: bool, last: Account, turns: nat, all: nat,
                     losses: int, total: int)
    requires t < |s.pcb| && Counted(s, s1, t, blocks, d)
    requires CountersAfter(s1.pcb[t].account, last, Newborn(s1, t), turns, losses)
    requires all == turns + if d then 1 else 0
    requires total == losses + if blocks then s.pcb[t].account.st.system else 0
    ensures CountersAfter(s.pcb[t].account, last, Newborn(s, t), all, total)
  {
    SwitchesAdd(s.pcb[t].account.st.trans, s1.pcb[t].account.st.trans, last.st.trans, Newborn(s, t), d, turns);
  }
}
