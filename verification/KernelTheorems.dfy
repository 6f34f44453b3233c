/** The kernel's promises, stated for every state in which the invariant holds -- by KernelRuns, for every reachable
    state. */
module KernelTheorems {
  import opened Params
  import opened TaskQueues
  import opened Ticks
  import opened Kernel
  import opened KernelRuns
  import opened Frames
  import Mem = Memory
  import RR = RoundRobin

  // ---------------------------------------------------------------- capacity

  lemma MulMono(n: nat, a: int, b: int)
    requires a <= b
    ensures n * a <= n * b
  {
  }

  /** With room for every PCB the out-of-memory paths are dead: fork fails only when there is no free PCB. */
  lemma NoMemoryFailure(s: State, clk: Clock)
    requires Inv(s) && s.c.Capacity() && s.sch.cur != s.c.nr - 1
    ensures ForkStep(s, clk).1 == if s.sch.q[FREE] == [] then -EAGAIN else Inc32(s.pidMax)
  {
    ForkOutcome(s, clk);
    if s.sch.q[FREE] != [] {
      MulMono(s.c.data, s.c.nr - |s.sch.q[FREE]|, s.c.nr - 1);
    }
  }

  /** What a fork that found memory did to the lists. */
  lemma ForkConsumesPcb(s: State, clk: Clock)
    requires Inv(s) && !InClock(s) && s.sch.cur != s.c.nr - 1 && s.sch.q[FREE] != [] && s.pidMax < INT_MAX
    requires ForkStep(s, clk).1 != -ENOMEM
    ensures var s' := Next(s, Fork(clk));
      && Inv(s') && s'.c == s.c && s'.sch.cur == s.sch.cur && s'.sch.q[FREE] == s.sch.q[FREE][1..]
          && s'.pidMax == s.pidMax + 1
      && !InClock(s')
      && (!s.c.Capacity() ==> s'.sch.q[FREE] != [])
  {
    ForkStart(s);
    if |s.sch.q[FREE]| == 1 { LastPcbNeedsCapacity(s, clk); }
    NextKeepsInv(s, Fork(clk));
    ForkedLists(s, clk);
  }

  lemma ForkedLists(s: State, clk: Clock)
    requires SizedMm(s) && s.sch.q[FREE] != [] && ForkStep(s, clk).1 != -ENOMEM && s.pidMax < INT_MAX && !InClock(s)
    requires s.sch.q[FREE][0] != s.sch.cur && s.sch.q[FREE][0] < s.c.nr
    ensures var r := ForkStep(s, clk).0;
      && r.c == s.c && r.sch.cur == s.sch.cur < |r.pcb| && |r.sch.q| >= 2 && r.sch.q[FREE] == s.sch.q[FREE][1..]
      && r.pidMax == s.pidMax + 1 && !InClock(r)
  {
  }

  /** A fork that takes the last free PCB succeeds only if everything fits. */
  lemma LastPcbNeedsCapacity(s: State, clk: Clock)
    requires Inv(s) && s.sch.cur != s.c.nr - 1 && |s.sch.q[FREE]| == 1 && ForkStep(s, clk).1 != -ENOMEM
    ensures s.c.Capacity()
  {
    ForkOutcome(s, clk);
    var live := s.c.nr - 1 - |s.sch.q[FREE]|;
    assert live + 1 == s.c.nr - 1;
  }

  /** There is a free PCB and still the running task's fork reports that memory ran out. */
  ghost predicate OutOfMemory(s: State, clk: Clock)
  {
    Inv(s) && s.sch.cur != s.c.nr - 1 && s.sch.q[FREE] != [] && ForkStep(s, clk).1 == -ENOMEM
  }

  function Forks(n: nat, clk: Clock): seq<Step>
  {
    if n == 0 then [] else [Fork(clk)] + Forks(n - 1, clk)
  }

  /** n forks of the running task lead to a state where the next one finds no memory. */
  ghost predicate RunsOut(s: State, n: nat, clk: Clock)
    requires Inv(s)
  {
    && Runs(s, Forks(n, clk))
    && var r := After(s, Forks(n, clk)); OutOfMemory(r, clk) && r.sch.cur == s.sch.cur && Enabled(r, Fork(clk))
  }

  lemma RunsOutNow(s: State, clk: Clock)
    requires OutOfMemory(s, clk) && Enabled(s, Fork(clk))
    ensures RunsOut(s, 0, clk)
  {
  }

  lemma RunsOutEarlier(s: State, s1: State, n: nat, clk: Clock)
    requires Inv(s) && Enabled(s, Fork(clk)) && s1 == Next(s, Fork(clk)) && Inv(s1) && s1.sch.cur == s.sch.cur
    requires RunsOut(s1, n, clk)
    ensures RunsOut(s, n + 1, clk)
  {
    RunCons(s, Fork(clk), Forks(n, clk));
    assert Forks(n + 1, clk) == [Fork(clk)] + Forks(n, clk);
  }

  /** The capacity condition is exact: without it, a task that keeps forking gets there. */
  lemma {:induction false} CapacityIsNecessary(s: State, clk: Clock) returns (n: nat)
    requires Inv(s) && !s.c.Capacity() && !InClock(s) && s.sch.cur != s.c.nr - 1 && s.sch.q[FREE] != []
    requires s.pidMax + |s.sch.q[FREE]| < INT_MAX
    ensures RunsOut(s, n, clk)
    decreases |s.sch.q[FREE]|
  {
    if ForkStep(s, clk).1 == -ENOMEM {
      n := 0;
      RunsOutNow(s, clk);
    } else {
      ForkConsumesPcb(s, clk);
      n := CapacityIsNecessary(Next(s, Fork(clk)), clk);
      RunsOutEarlier(s, Next(s, Fork(clk)), n, clk);
      n := n + 1;
    }
  }

  // ---------------------------------------------------------------- frames in use

  /** Numbers of live processes and of free PCBs add up. */
  lemma LiveCount(s: State)
    requires Inv(s)
    ensures |set t | 0 <= t < s.c.nr && Mem.Live(s.c, s.sch.q[FREE], t)| == s.c.nr - 1 - |s.sch.q[FREE]|
  {
    var free := s.sch.q[FREE];
    FreeListShape(s.sch, s.c.nr);
    var dead := Elements(free);
    NoDupCard(free);
    assert dead <= Upto(s.c.nr - 1);
    assert (set t | 0 <= t < s.c.nr && Mem.Live(s.c, free, t)) == Upto(s.c.nr - 1) - dead;
  }

  function Upto(n: nat): (r: set<int>)
    ensures |r| == n && forall t :: t in r <==> 0 <= t < n
  {
    if n == 0 then {} else Upto(n - 1) + {n - 1}
  }

  function Elements(s: seq<nat>): set<int> { set t | t in s }

  lemma {:induction false} NoDupCard(s: seq<nat>)
    requires NoDup(s)
    ensures |Elements(s)| == |s|
  {
    if s != [] {
      var n := |s| - 1;
      NoDupCard(s[..n]);
      assert s == s[..n] + [s[n]];
      assert Elements(s) == Elements(s[..n]) + {s[n]};
    }
  }

  function UsedFrom(c: Config, used: seq<bool>, i: nat): set<int>
    requires |used| == c.total
  {
    set f | i <= f < c.total && used[f]
  }

  lemma UsedFromStep(c: Config, used: seq<bool>, i: nat)
    requires |used| == c.total && Slot(c, i) && forall f :: c.kernel <= f < c.total && used[f] ==> Slot(c, f)
    ensures UsedFrom(c, used, i) == UsedFrom(c, used, i + 2) + if used[i] then {i} else {}
  {
    assert !Slot(c, i + 1);
  }

  lemma {:induction false} UsedCount(c: Config, used: seq<bool>, i: nat)
    requires |used| == c.total && c.kernel <= i <= c.total + 1 && (i - c.kernel) % 2 == 0
    requires forall f :: c.kernel <= f < c.total && used[f] ==> Slot(c, f)
    ensures |UsedFrom(c, used, i)| + FreeSlots(c, used, i) == (c.total - i + 1) / 2
    decreases c.total - i
  {
    if i < c.total {
      UsedCount(c, used, i + 2);
      UsedFromStep(c, used, i);
    } else {
      assert UsedFrom(c, used, i) == {};
    }
  }

  /** Conservation of frames: past the kernel, exactly the code frames and `data` frames for each live process are in
      use, each of them a frame alloc_frame can hand out. */
  lemma FramesInUse(s: State)
    requires Inv(s)
    ensures forall f :: s.c.kernel <= f < s.c.total ==>
      (s.mm.used[f] <==> Mem.CodeFrame(s.c, f) || Mem.HasOwner(s.c, s.mm.pt, s.sch.q[FREE], f))
    ensures forall f :: s.c.kernel <= f < s.c.total && s.mm.used[f] ==> Slot(s.c, f)
    ensures |set f | s.c.kernel <= f < s.c.total && s.mm.used[f]|
      == s.c.code + s.c.data * |set t | 0 <= t < s.c.nr && Mem.Live(s.c, s.sch.q[FREE], t)|
  {
    var c, m, free := s.c, s.mm, s.sch.q[FREE];
    forall f | Mem.HasOwner(c, m.pt, free, f) ensures Slot(c, f) && m.used[f] {
      var t :| Mem.Live(c, free, t) && Mem.OwnedBy(c, m.pt[t], f);
      assert Mem.OwnFrames(c, m.used, m.pt[t]);
    }
    forall f | c.kernel <= f < c.total && m.used[f] && !Mem.CodeFrame(c, f) ensures Mem.HasOwner(c, m.pt, free, f) {
    }
    UsedCount(c, m.used, c.kernel);
    LiveCount(s);
  }

  // ---------------------------------------------------------------- isolation and translation

  /** Two live processes share a frame only where both map code. */
  lemma Isolated(s: State, t: nat, p: nat, u: nat, q: nat)
    requires Inv(s) && Mem.Live(s.c, s.sch.q[FREE], t) && Mem.Live(s.c, s.sch.q[FREE], u) && t != u
    requires s.c.kernel <= p < s.c.WindowPage() && s.c.kernel <= q < s.c.WindowPage()
    ensures s.mm.pt[t][p].frame >= s.c.kernel
    ensures s.mm.pt[t][p].frame == s.mm.pt[u][q].frame <==> p == q < s.c.DataPage()
  {
    Mem.MeetOnlyInCode(s.c, s.mm.used, s.mm.pt[t], s.mm.pt[u], p, q);
  }

  /** The installed directory is the running task's own, never a dead one's; a user task has all its pages mapped, idle
      none. */
  lemma InstalledIsLive(s: State, p: nat)
    requires Inv(s) && s.c.kernel <= p < s.c.total
    ensures s.mm.cr3 == s.sch.cur == s.pcb[s.sch.cur].dir && s.sch.cur !in s.sch.q[FREE]
    ensures Mem.Walk(s.mm.pt[s.mm.cr3], p).Some? <==> s.sch.cur != s.c.nr - 1 && p < s.c.WindowPage()
  {
    FreeListShape(s.sch, s.c.nr);
    assert Mem.SystemPart(s.c, s.mm.pt[s.mm.cr3]);
    if s.sch.cur != s.c.nr - 1 {
      assert Mem.Live(s.c, s.sch.q[FREE], s.sch.cur);
      assert Mem.UserPart(s.c, s.mm.pt[s.mm.cr3]);
    }
  }

  /** The kernel's part of every address space: mapped onto itself, closed to user mode, and nothing at page 0, so that
      a null pointer faults. */
  lemma KernelPages(s: State, t: nat, p: nat)
    requires Inv(s) && t < s.c.nr && p < s.c.kernel
    ensures |s.mm.pt[t]| == s.c.total && p < s.c.total
    ensures Mem.Walk(s.mm.pt[t], p) == if p == 0 then Mem.None else Mem.Some(p)
    ensures p > 0 ==> s.mm.pt[t][p].rw && !s.mm.pt[t][p].user
  {
    assert Mem.SystemPart(s.c, s.mm.pt[t]);
  }

  /** TLB coherence: what the processor uses at any user-mode access is what the installed table says. */
  lemma TranslationIsExact(s: State, page: nat)
    requires Inv(s)
    ensures Mem.Translate(s.mm, page) == Mem.Walk(s.mm.pt[s.sch.cur], page)
  {
  }

  /** Fork duplicates the address space: after a successful fork the child sees at every user address what the parent
      saw, and each process that was live -- the parent too -- sees what it saw. */
  lemma ForkDuplicates(s: State, clk: Clock, va: nat)
    requires Inv(s) && s.sch.cur != s.c.nr - 1 && s.sch.q[FREE] != [] && va / PAGE_SIZE >= s.c.kernel
    requires Mem.Fork(s.c, s.mm, s.sch.cur, s.sch.q[FREE][0]).1
    ensures var s', child := ForkStep(s, clk).0, s.sch.q[FREE][0];
      && |s'.mm.pt| == s.c.nr && |s'.pcb| == s.c.nr && s'.pcb[child].dir == child
      && Mem.View(s'.mm, child, va) == Mem.View(s.mm, s.sch.cur, va)
      && (forall t :: Mem.Live(s.c, s.sch.q[FREE], t) ==>
            s'.pcb[t].dir == t && s'.mm.pt[t] == s.mm.pt[t] && Mem.View(s'.mm, t, va) == Mem.View(s.mm, t, va))
  {
    ForkStart(s);
    ForkedDirs(s, clk);
    ForkedViews(s.c, s.mm, s.sch.q[FREE], s.sch.cur, s.sch.q[FREE][0], va);
  }

  /** The memory that the fork step leaves, and the directories in the PCBs. */
  lemma ForkedDirs(s: State, clk: Clock)
    requires SizedMm(s) && s.sch.q[FREE] != [] && s.sch.q[FREE][0] < s.c.nr && s.sch.q[FREE][0] != s.sch.cur
    requires s.pcb[s.sch.cur].dir == s.sch.cur && Mem.Fork(s.c, s.mm, s.sch.cur, s.sch.q[FREE][0]).1
    ensures var s', child := ForkStep(s, clk).0, s.sch.q[FREE][0];
      && s'.mm == Mem.Fork(s.c, s.mm, s.sch.cur, child).0 && |s'.pcb| == s.c.nr && s'.pcb[child].dir == child
      && forall t :: 0 <= t < s.c.nr && t != child ==> s'.pcb[t].dir == s.pcb[t].dir
  {
  }

  lemma ForkedViews(c: Config, m: Mem.Mm, free: seq<nat>, parent: nat, child: nat, va: nat)
    requires Mem.MmOk(c, m, free) && Mem.Live(c, free, parent) && child in free && child < c.nr - 1
      && va / PAGE_SIZE >= c.kernel
    requires Mem.Fork(c, m, parent, child).1
    ensures var m' := Mem.Fork(c, m, parent, child).0;
      && |m'.pt| == c.nr && Mem.View(m', child, va) == Mem.View(m, parent, va)
      && forall t :: Mem.Live(c, free, t) ==> m'.pt[t] == m.pt[t] && Mem.View(m', t, va) == Mem.View(m, t, va)
  {
    var m' := Mem.Fork(c, m, parent, child).0;
    var frames := Mem.ForkForks(c, m, free, parent, child);
    Mem.ForkChildView(c, m, m', free, parent, child, frames, va);
    forall t | Mem.Live(c, free, t) ensures m'.pt[t] == m.pt[t] && Mem.View(m', t, va) == Mem.View(m, t, va) {
      Mem.ForkOtherViews(c, m, m', free, parent, child, frames, t, va);
    }
  }

  // ---------------------------------------------------------------- tasks and PIDs

  /** Each PCB is in exactly one place: running, at one position of one list, or -- idle only -- parked in none. */
  lemma PlacedOnce(s: State, t: nat)
    requires Inv(s) && t < s.c.nr
    ensures t == s.sch.cur ==> !In(s.sch.q, t)
    ensures t != s.sch.cur && t != s.c.nr - 1 ==> In(s.sch.q, t)
    ensures forall a, i, b, j ::
      (0 <= a < |s.sch.q| && 0 <= b < |s.sch.q| && 0 <= i < |s.sch.q[a]| && 0 <= j < |s.sch.q[b]|
       && s.sch.q[a][i] == t && s.sch.q[b][j] == t) ==> a == b && i == j
  {
    forall a, i, b, j | 0 <= a < |s.sch.q| && 0 <= b < |s.sch.q| && 0 <= i < |s.sch.q[a]| && 0 <= j < |s.sch.q[b]|
      && s.sch.q[a][i] == t && s.sch.q[b][j] == t
      ensures a == b && i == j
    {
      assert t in s.sch.q[a] && t in s.sch.q[b];
    }
  }

  lemma TickPid(s: State, clk: Clock, t: nat)
    requires Sized(s) && t < s.c.nr
    ensures var s' := TickStep(s, clk);
      |s'.pcb| == s.c.nr && s'.c == s.c && s'.pidMax == s.pidMax && s'.pcb[t].pid == s.pcb[t].pid
  {
  }

  lemma BlockPid(s: State, b: nat, clk: Clock, t: nat)
    requires Sized(s) && t < s.c.nr && b < |s.sch.q|
    ensures var s' := BlockStep(s, b, clk);
      |s'.pcb| == s.c.nr && s'.c == s.c && s'.pidMax == s.pidMax && s'.pcb[t].pid == s.pcb[t].pid
  {
  }

  lemma UnblockPid(s: State, b: nat, i: nat, clk: Clock, t: nat)
    requires Sized(s) && t < s.c.nr && b < |s.sch.q| && i < |s.sch.q[b]|
    ensures var s' := UnblockStep(s, b, i, clk);
      |s'.pcb| == s.c.nr && s'.c == s.c && s'.pidMax == s.pidMax && s'.pcb[t].pid == s.pcb[t].pid
  {
  }

  lemma ExitPid(s: State, clk: Clock, t: nat)
    requires SizedMm(s) && t < s.c.nr
    ensures var s' := ExitStep(s, clk);
      |s'.pcb| == s.c.nr && s'.c == s.c && s'.pidMax == s.pidMax
          && s'.pcb[t].pid == if t == s.sch.cur then -1 else s.pcb[t].pid
  {
  }

  /** The PID that each step leaves in each PCB. */
  lemma PidAfter(s: State, e: Step, t: nat)
    requires Inv(s) && Enabled(s, e) && t < s.c.nr
    ensures var s', cur, free := Next(s, e), s.sch.cur, s.sch.q[FREE];
      && |s'.pcb| == s.c.nr && s'.c == s.c
      && (e.Exit? ==> s'.pcb[t].pid == if t == cur then -1 else s.pcb[t].pid)
      && (e.Fork? && free != [] && t == free[0] ==>
            s'.pcb[t].pid == if ForkStep(s, e.clk).1 == -ENOMEM then s.pcb[cur].pid else s.pidMax + 1)
      && (!e.Exit? && !(e.Fork? && free != [] && t == free[0]) ==> s'.pcb[t].pid == s.pcb[t].pid)
      && s'.pidMax == if e.Fork? && free != [] && ForkStep(s, e.clk).1 != -ENOMEM then s.pidMax + 1 else s.pidMax
  {
    match e
    case Fork(_) => ForkStart(s);
    case Exit(clk) => ExitPid(s, clk, t);
    case Tick(clk) => TickPid(s, clk, t);
    case Block(b, clk) => BlockPid(s, b, clk, t);
    case Unblock(b, i, clk) => UnblockPid(s, b, i, clk, t);
    case _ =>
  }

  /** There is a free PCB, but the data of one more process does not fit in memory. */
  predicate NoRoom(s: State)
    requires |s.sch.q| >= 2
  {
    var free := |s.sch.q[FREE]|;
    free > 0 && s.c.code + s.c.data * (s.c.nr - free) > s.c.Slots()
  }

  lemma EnomemIff(s: State, clk: Clock)
    requires Inv(s) && s.sch.cur != s.c.nr - 1 && s.pidMax < INT_MAX
    ensures ForkStep(s, clk).1 == -ENOMEM <==> NoRoom(s)
  {
    ForkOutcome(s, clk);
  }

  /** A step leaves the PID -1 in the free PCBs exactly if it is not a fork with a free PCB and no room for its data. */
  lemma FreePidsStayClean(s: State, e: Step)
    requires Inv(s) && Enabled(s, e) && FreePidsClean(s)
    ensures Inv(Next(s, e))
    ensures FreePidsClean(Next(s, e)) <==> !(e.Fork? && NoRoom(s))
  {
    NextKeepsInv(s, e);
    if e.Fork? { EnomemIff(s, e.clk); }
    if e.Fork? && ForkStep(s, e.clk).1 == -ENOMEM {
      EnomemLeavesPid(s, e.clk);
    } else {
      OthersLeaveClean(s, e);
    }
  }

  lemma EnomemLeavesPid(s: State, clk: Clock)
    requires Inv(s) && Enabled(s, Fork(clk)) && ForkStep(s, clk).1 == -ENOMEM
    ensures var s' := ForkStep(s, clk).0; |s'.sch.q| >= 2 && |s'.pcb| == s'.c.nr && !FreePidsClean(s')
  {
    ForkStart(s);
    var s', free' := ForkStep(s, clk).0, FreeAfter(s, Fork(clk));
    PidAfter(s, Fork(clk), free'[0]);
    assert Mem.Live(s.c, s.sch.q[FREE], s.sch.cur) && free'[0] in free' && s'.pcb[free'[0]].pid >= 1;
  }

  lemma OthersLeaveClean(s: State, e: Step)
    requires Inv(s) && Enabled(s, e) && FreePidsClean(s) && !(e.Fork? && ForkStep(s, e.clk).1 == -ENOMEM)
    ensures var s' := Next(s, e); |s'.sch.q| >= 2 && |s'.pcb| == s'.c.nr && FreePidsClean(s')
  {
    var s', free' := Next(s, e), FreeAfter(s, e);
    FreeListShape(s.sch, s.c.nr);
    PidAfter(s, e, 0);
    forall t | 0 <= t < s.c.nr && t in free' ensures s'.pcb[t].pid == -1 {
      PidAfter(s, e, t);
    }
  }

  /** The free list after a step. */
  ghost function FreeAfter(s: State, e: Step): (free: seq<nat>)
    requires Inv(s) && Enabled(s, e)
    ensures |Next(s, e).sch.q| >= 2 && free == Next(s, e).sch.q[FREE]
    ensures free == if e.Exit? then s.sch.q[FREE] + [s.sch.cur]
                    else if e.Fork? && s.sch.q[FREE] != [] && ForkStep(s, e.clk).1 != -ENOMEM then s.sch.q[FREE][1..]
                    else s.sch.q[FREE]
  {
    StepProjects(s, e);
    FreeListAfter(s.sch, s.c.nr, EventOf(s, e));
    Next(s, e).sch.q[FREE]
  }

  /** So with enough memory they do over every run. */
  lemma {:induction false} FreePidsCleanOverRuns(s: State, es: seq<Step>)
    requires Inv(s) && Runs(s, es) && FreePidsClean(s) && s.c.Capacity()
    ensures FreePidsClean(After(s, es))
    decreases |es|
  {
    if es != [] {
      UnfoldRun(s, es);
      CleanStep(s, es[0]);
      FreePidsCleanOverRuns(Next(s, es[0]), es[1..]);
    }
  }

  lemma CleanStep(s: State, e: Step)
    requires Inv(s) && Enabled(s, e) && FreePidsClean(s) && s.c.Capacity()
    ensures var s' := Next(s, e); |s'.sch.q| >= 2 && |s'.pcb| == s'.c.nr && FreePidsClean(s') && s'.c == s.c
  {
    if e.Fork? { NoMemoryFailure(s, e.clk); }
    OthersLeaveClean(s, e);
    PidAfter(s, e, 0);
  }

  /** A non-negative PID names at most one PCB, and that PCB is live or idle. */
  lemma PidNamesOne(s: State, t: nat, u: nat)
    requires Inv(s) && FreePidsClean(s) && t < s.c.nr && u < s.c.nr
    requires s.pcb[t].pid == s.pcb[u].pid >= 0
    ensures t == u && t !in s.sch.q[FREE]
  {
    assert t < s.c.nr - 1 ==> Mem.Live(s.c, s.sch.q[FREE], t);
    assert u < s.c.nr - 1 ==> Mem.Live(s.c, s.sch.q[FREE], u);
  }

  /** The PCB is not free, and no other has its PID. */
  ghost predicate SoleOwner(s: State, who: nat)
    requires Inv(s) && who < s.c.nr
  {
    who !in s.sch.q[FREE] && forall t :: 0 <= t < s.c.nr && s.pcb[t].pid == s.pcb[who].pid ==> t == who
  }

  lemma OnlyOwner(s: State, who: nat)
    requires Inv(s) && FreePidsClean(s) && who < s.c.nr && s.pcb[who].pid >= 0
    ensures SoleOwner(s, who)
  {
    forall t | 0 <= t < s.c.nr && s.pcb[t].pid == s.pcb[who].pid ensures t == who { PidNamesOne(s, t, who); }
    PidNamesOne(s, who, who);
  }

  /** getStatPID: the first PCB with the given PID. */
  function FirstWithPid(pcb: seq<Pcb>, pid: int): (r: Mem.Option<nat>)
    ensures r.Some? ==> r.value < |pcb| && pcb[r.value].pid == pid && forall t :: 0 <= t < r.value ==> pcb[t].pid != pid
    ensures r.None? ==> forall t :: 0 <= t < |pcb| ==> pcb[t].pid != pid
  {
    if pcb == [] then Mem.None
    else if pcb[0].pid == pid then Mem.Some(0)
    else
      var rest := FirstWithPid(pcb[1..], pid);
      if rest.None? then Mem.None else Mem.Some(rest.value + 1)
  }

  /** The scan looks at nothing but PIDs. */
  lemma SamePids(a: seq<Pcb>, b: seq<Pcb>, pid: int)
    requires |a| == |b| && forall t :: 0 <= t < |a| ==> a[t].pid == b[t].pid
    ensures FirstWithPid(a, pid) == FirstWithPid(b, pid)
  {
  }

  /** With clean free PCBs the scan finds the one live owner of the PID, and nothing exactly when nobody live has it. */
  lemma LookupFindsTheOwner(s: State, pid: int, t: nat)
    requires Inv(s) && FreePidsClean(s) && pid >= 0 && t < s.c.nr
    ensures FirstWithPid(s.pcb, pid) == Mem.Some(t) <==> t !in s.sch.q[FREE] && s.pcb[t].pid == pid
  {
    if s.pcb[t].pid == pid {
      PidNamesOne(s, t, FirstWithPid(s.pcb, pid).value);
    }
  }

  /** The shortcut for the running process agrees with the scan exactly when no PCB that a failed fork left behind
      precedes it with the same PID; so always when the free PCBs are clean. */
  lemma ShortcutAgrees(s: State)
    requires Inv(s)
    ensures FirstWithPid(s.pcb, s.pcb[s.sch.cur].pid) == Mem.Some(s.sch.cur) <==>
              forall t :: 0 <= t < s.sch.cur && t in s.sch.q[FREE] ==> s.pcb[t].pid != s.pcb[s.sch.cur].pid
    ensures FreePidsClean(s) ==> FirstWithPid(s.pcb, s.pcb[s.sch.cur].pid) == Mem.Some(s.sch.cur)
  {
    var cur, free := s.sch.cur, s.sch.q[FREE];
    FreeListShape(s.sch, s.c.nr);
    assert cur < s.c.nr - 1 ==> Mem.Live(s.c, free, cur);
    forall t | 0 <= t < cur && t !in free ensures s.pcb[t].pid != s.pcb[cur].pid {
      assert Mem.Live(s.c, free, t);
    }
  }

  /** Without room for every PCB it does happen: from boot, the initial process forks until memory runs out, and from
      then on the scan for its own PID finds a dead PCB. */
  lemma ShortcutCanDisagree(c: Config, mem: seq<seq<Mem.Byte>>, queues: nat, births: (word, word), clk: Clock)
      returns (n: nat)
    requires c.Valid() && !c.Capacity() && c.nr <= INT_MAX
    requires |mem| == c.total && forall f :: 0 <= f < c.total ==> |mem[f]| == PAGE_SIZE
    ensures |AllocFrames(c, InitialFrames(c), c.code + c.data).frames| == c.code + c.data
    ensures var s := Boot(c, mem, queues, births.0, births.1);
      && Inv(s) && Runs(s, Forks(n, clk))
      && ScanDisagrees(After(s, Forks(n, clk)))
  {
    BootInv(c, mem, queues, births.0, births.1);
    var s0 := Boot(c, mem, queues, births.0, births.1);
    n := DisagreesAfter(s0, clk);
  }

  lemma DisagreesAfter(s0: State, clk: Clock) returns (n: nat)
    requires Inv(s0) && !s0.c.Capacity() && !InClock(s0) && s0.sch.q[FREE] != []
      && s0.pidMax + |s0.sch.q[FREE]| < INT_MAX
    requires s0.sch.cur == s0.c.Init()
    ensures Runs(s0, Forks(n, clk)) && ScanDisagrees(After(s0, Forks(n, clk)))
  {
    n := CapacityIsNecessary(s0, clk);
    var s := After(s0, Forks(n, clk));
    FreeBelowInit(s.sch, s.c.nr);
    ScanFindsCopy(s, clk);
    OneMoreFork(s0, n, clk);
    n := n + 1;
  }

  lemma FreeBelowInit(sch: RR.Sched, nr: nat)
    requires RR.Partition(sch, nr) && sch.q[FREE] != [] && sch.cur == nr - 2
    ensures sch.q[FREE][0] < sch.cur
  {
    FreeListShape(sch, nr);
  }

  lemma OneMoreFork(s: State, n: nat, clk: Clock)
    requires Inv(s) && Runs(s, Forks(n, clk)) && Enabled(After(s, Forks(n, clk)), Fork(clk))
    ensures Runs(s, Forks(n + 1, clk)) && After(s, Forks(n + 1, clk)) == Next(After(s, Forks(n, clk)), Fork(clk))
  {
    RunOne(After(s, Forks(n, clk)), Fork(clk));
    RunConcat(s, Forks(n, clk), [Fork(clk)]);
    ForksSnoc(n, clk);
  }

  lemma {:induction false} ForksSnoc(n: nat, clk: Clock)
    ensures Forks(n + 1, clk) == Forks(n, clk) + [Fork(clk)]
  {
    if n > 0 { ForksSnoc(n - 1, clk); }
  }

  /** After a fork without memory the scan for the parent's PID stops at a free PCB, if the first one precedes it. */
  lemma ScanFindsCopy(s: State, clk: Clock)
    requires OutOfMemory(s, clk) && Enabled(s, Fork(clk)) && s.sch.q[FREE][0] < s.sch.cur
    ensures var r := Next(s, Fork(clk)); Inv(r) && r.sch.cur == s.sch.cur && ScanDisagrees(r)
  {
    NextKeepsInv(s, Fork(clk));
    var r, child := Next(s, Fork(clk)), s.sch.q[FREE][0];
    assert r.sch.cur == s.sch.cur && r.sch.q[FREE] == s.sch.q[FREE]
        by { ForkStart(s); var _ := FreeAfter(s, Fork(clk)); }
    assert r.pcb[child].pid == r.pcb[r.sch.cur].pid by {
      ForkStart(s);
      PidAfter(s, Fork(clk), child);
      PidAfter(s, Fork(clk), s.sch.cur);
    }
    EarlierCopy(r, child);
  }

  /** The scan for the running process's PID stops at a free PCB. */
  ghost predicate ScanDisagrees(s: State)
    requires Inv(s)
  {
    && s.pcb[s.sch.cur].pid >= 1
    && var r := FirstWithPid(s.pcb, s.pcb[s.sch.cur].pid);
       r.Some? && r.value in s.sch.q[FREE] && r.value != s.sch.cur
  }

  lemma EarlierCopy(s: State, t: nat)
    requires Inv(s) && t < s.sch.cur < s.c.nr - 1 && s.pcb[t].pid == s.pcb[s.sch.cur].pid
    ensures ScanDisagrees(s)
  {
    FreeListShape(s.sch, s.c.nr);
    assert Mem.Live(s.c, s.sch.q[FREE], s.sch.cur);
    var r, free := FirstWithPid(s.pcb, s.pcb[s.sch.cur].pid).value, s.sch.q[FREE];
    assert r in free || Mem.Live(s.c, free, r);
  }

  /** A live process after the step was the same process before, or is new and has a PID larger than any given out so
      far. */
  lemma StepPids(s: State, e: Step)
    requires Inv(s) && Enabled(s, e)
    ensures var s' := Next(s, e);
      && Inv(s') && s'.c == s.c && s.pidMax <= s'.pidMax
      && forall t :: Mem.Live(s.c, s'.sch.q[FREE], t) ==>
           s'.pcb[t].pid > s.pidMax || (Mem.Live(s.c, s.sch.q[FREE], t) && s'.pcb[t].pid == s.pcb[t].pid)
  {
    NextKeepsInv(s, e);
    FreeListShape(s.sch, s.c.nr);
    var s', free' := Next(s, e), FreeAfter(s, e);
    PidAfter(s, e, 0);
    forall t | Mem.Live(s.c, free', t)
      ensures s'.pcb[t].pid > s.pidMax || (Mem.Live(s.c, s.sch.q[FREE], t) && s'.pcb[t].pid == s.pcb[t].pid)
    {
      PidAfter(s, e, t);
    }
  }

  /** PIDs are never reused, over every run. */
  lemma {:induction false} PidsNeverReused(s: State, es: seq<Step>, t: nat)
    requires Inv(s) && Runs(s, es)
    ensures var r := After(s, es);
      && s.pidMax <= r.pidMax
      && (Mem.Live(s.c, r.sch.q[FREE], t) ==>
            r.pcb[t].pid > s.pidMax || (Mem.Live(s.c, s.sch.q[FREE], t) && r.pcb[t].pid == s.pcb[t].pid))
    decreases |es|
  {
    if es != [] {
      UnfoldRun(s, es);
      StepPids(s, es[0]);
      PidsNeverReused(Next(s, es[0]), es[1..], t);
    }
  }

  /** Time is conserved with its exact deficit in every PCB, and no PCB is ever seen in state ST_BLOCKED: the switch
      that follows block_process has already overwritten it. */
  lemma TimeIsConserved(s: State, es: seq<Step>, t: nat)
    requires Inv(s) && Runs(s, es) && t < s.c.nr
    ensures Balanced(After(s, es).pcb[t].account) && After(s, es).pcb[t].state != StBlocked
  {
  }
}
