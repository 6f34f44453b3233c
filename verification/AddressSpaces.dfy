/** What happens to address spaces over whole runs: who can write code, and that nobody touches the data of a process
    that does not run. */
module AddressSpaces {
  import opened Params
  import opened TaskQueues
  import opened Ticks
  import opened Kernel
  import opened KernelRuns
  import opened KernelTheorems
  import opened Frames
  import Mem = Memory
  import RR = RoundRobin

  // ---------------------------------------------------------------- tables

  /** No step touches the table of a process that is live before it. */
  lemma TablesAfter(s: State, e: Step, t: nat)
    requires Inv(s) && Enabled(s, e) && IsLive(s, t)
    ensures |Next(s, e).mm.pt| == s.c.nr && Next(s, e).mm.pt[t] == s.mm.pt[t]
  {
    if e.Fork? {
      ForkTablesAfter(s, e.clk, t);
    } else if !e.UserWrite? && !e.KernelWrite? {
      OnlySwitch(s, e);
    }
  }

  lemma ForkTablesAfter(s: State, clk: Clock, t: nat)
    requires Inv(s) && Enabled(s, Fork(clk)) && IsLive(s, t)
    ensures |ForkStep(s, clk).0.mm.pt| == s.c.nr && ForkStep(s, clk).0.mm.pt[t] == s.mm.pt[t]
  {
    ForkStart(s);
    var free, cur := s.sch.q[FREE], s.sch.cur;
    if free != [] {
      if Mem.Fork(s.c, s.mm, cur, free[0]).1 {
        var frames := Mem.ForkForks(s.c, s.mm, free, cur, free[0]);
      } else {
        Mem.FailedForkKeeps(s.c, s.mm, free, cur, free[0]);
      }
    }
  }

  /** The steps that neither copy nor store leave tables and bytes alone. */
  lemma OnlySwitch(s: State, e: Step)
    requires Inv(s) && Enabled(s, e) && !e.Fork? && !e.UserWrite? && !e.KernelWrite?
    ensures Next(s, e).mm.pt == s.mm.pt && Next(s, e).mm.mem == s.mm.mem
  {
  }

  // ---------------------------------------------------------------- code pages

  ghost predicate CodeRw(c: Config, t: Mem.Table, rw: bool)
    requires c.DataPage() <= |t|
  {
    forall p :: c.kernel <= p < c.DataPage() ==> t[p].rw == rw
  }

  ghost predicate CodePagesOk(s: State, t: nat)
    requires Inv(s) && IsLive(s, t)
  {
    CodeRw(s.c, s.mm.pt[t], s.pcb[t].pid != 1)
  }

  /** Code pages are writable in exactly the live processes other than the initial one, whose PID is 1. */
  ghost predicate OnlyInitCannotWriteCode(s: State)
    requires Inv(s)
  {
    forall t :: IsLive(s, t) ==> CodePagesOk(s, t)
  }

  /** set_ss_pag makes the child's code pages writable, whatever the parent's are. */
  lemma ChildCodeIsWritable(c: Config, m: Mem.Mm, parent: nat, child: nat)
    requires Mem.Shape(c, m) && parent < c.nr && child < c.nr && parent != child && Mem.Fork(c, m, parent, child).1
    ensures var pt := Mem.Fork(c, m, parent, child).0.pt;
      |pt| == c.nr && |pt[child]| == c.total && CodeRw(c, pt[child], true)
  {
  }

  lemma ForkCodePages(s: State, clk: Clock)
    requires Inv(s) && Enabled(s, Fork(clk)) && s.sch.q[FREE] != [] && ForkStep(s, clk).1 != -ENOMEM
    ensures var pt, child := ForkStep(s, clk).0.mm.pt, s.sch.q[FREE][0];
      child < |pt| == s.c.nr && |pt[child]| == s.c.total && CodeRw(s.c, pt[child], true)
  {
    ForkStart(s);
    ChildCodeIsWritable(s.c, s.mm, s.sch.cur, s.sch.q[FREE][0]);
  }

  /** A live process after the step was live before with the same PID, or is the child of a fork and has a PID above
      1. */
  lemma LiveBefore(s: State, e: Step, t: nat)
    requires Inv(s) && Enabled(s, e) && Inv(Next(s, e)) && IsLive(Next(s, e), t)
    ensures var s' := Next(s, e);
      || (IsLive(s, t) && s'.pcb[t].pid == s.pcb[t].pid)
      || (e.Fork? && s.sch.q[FREE] != [] && t == s.sch.q[FREE][0] && ForkStep(s, e.clk).1 != -ENOMEM
          && s'.pcb[t].pid > 1)
  {
    var free' := FreeAfter(s, e);
    assert Next(s, e).c == s.c by { PidAfter(s, e, 0); }
    PidAfter(s, e, t);
  }

  lemma CodePagesStep(s: State, e: Step, s': State)
    requires Inv(s) && Enabled(s, e) && s' == Next(s, e) && Inv(s') && OnlyInitCannotWriteCode(s)
    ensures OnlyInitCannotWriteCode(s')
  {
    forall t | IsLive(s', t) ensures CodePagesOk(s', t) {
      CodePagesOf(s, e, s', t);
    }
  }

  lemma CodePagesOf(s: State, e: Step, s': State, t: nat)
    requires Inv(s) && Enabled(s, e) && s' == Next(s, e) && Inv(s') && OnlyInitCannotWriteCode(s) && IsLive(s', t)
    ensures CodePagesOk(s', t)
  {
    LiveBefore(s, e, t);
    assert s'.c == s.c by { PidAfter(s, e, t); }
    if IsLive(s, t) {
      assert CodePagesOk(s, t);
      TablesAfter(s, e, t);
    } else {
      ForkCodePages(s, e.clk);
    }
  }

  /** Over every run. */
  lemma {:induction false} CodePagesOverRuns(s: State, es: seq<Step>)
    requires Inv(s) && Runs(s, es) && OnlyInitCannotWriteCode(s)
    ensures OnlyInitCannotWriteCode(After(s, es))
    decreases |es|
  {
    if es != [] {
      RunHead(s, es);
      CodePagesStep(s, es[0], Next(s, es[0]));
      CodePagesOverRuns(Next(s, es[0]), es[1..]);
    }
  }

  lemma BootCodePages(c: Config, mem: seq<seq<Mem.Byte>>, queues: nat, idleBirth: word, initBirth: word)
    requires c.Valid() && |mem| == c.total && forall f :: 0 <= f < c.total ==> |mem[f]| == PAGE_SIZE
    ensures |AllocFrames(c, InitialFrames(c), c.code + c.data).frames| == c.code + c.data
    ensures var s := Boot(c, mem, queues, idleBirth, initBirth); Inv(s) && OnlyInitCannotWriteCode(s)
  {
    BootInv(c, mem, queues, idleBirth, initBirth);
    BootFreeSpec(c);
    Mem.BootShape(c, mem);
    var s := Boot(c, mem, queues, idleBirth, initBirth);
    forall t | IsLive(s, t) ensures CodePagesOk(s, t) {
      assert t == c.Init();
    }
  }

  /** So a running process can store to a code page if and only if its PID is not 1 -- and then every live process reads
      what it stored. */
  lemma CodeStore(s: State, va: nat, b: Mem.Byte, t: nat)
    requires Inv(s) && OnlyInitCannotWriteCode(s) && !InClock(s) && s.c.kernel <= va / PAGE_SIZE < s.c.DataPage()
    requires s.sch.cur != s.c.nr - 1 && IsLive(s, t)
    ensures Enabled(s, UserWrite(va, b)) <==> s.pcb[s.sch.cur].pid != 1
    ensures Enabled(s, UserWrite(va, b)) ==> Mem.View(Next(s, UserWrite(va, b)).mm, t, va) == Mem.Some(b)
  {
    ForkStart(s);
    assert IsLive(s, s.sch.cur) && Mem.UserPart(s.c, s.mm.pt[s.sch.cur]);
    if Enabled(s, UserWrite(va, b)) {
      Mem.CodeStoreIsPublic(s.c, s.mm, s.sch.q[FREE], va, b, t);
    }
  }

  // ---------------------------------------------------------------- data pages

  /** A store by another live process, to whatever page, does not change what is read in the data pages of `t`. */
  lemma StoreKeepsData(s: State, va: nat, b: Mem.Byte, t: nat, va': nat)
    requires Inv(s) && Mem.Reaches(s.mm, va) && IsLive(s, t) && t != s.sch.cur && va' / PAGE_SIZE >= s.c.DataPage()
    ensures Mem.WriteByte(s.mm, va, b).pt == s.mm.pt
    ensures Mem.View(Mem.WriteByte(s.mm, va, b), t, va') == Mem.View(s.mm, t, va')
  {
    var page, page' := va / PAGE_SIZE, va' / PAGE_SIZE;
    WriterIsLive(s, va);
    assert Mem.SystemPart(s.c, s.mm.pt[t]);
    if page' < s.c.WindowPage() {
      Isolated(s, s.sch.cur, page, t, page');
    }
  }

  /** Only a live process has pages to store to, and they are its code and data. */
  lemma WriterIsLive(s: State, va: nat)
    requires Inv(s) && Mem.Reaches(s.mm, va)
    ensures IsLive(s, s.sch.cur) && s.c.kernel <= va / PAGE_SIZE < s.c.WindowPage()
    ensures Mem.Translate(s.mm, va / PAGE_SIZE) == Mem.Some(s.mm.pt[s.sch.cur][va / PAGE_SIZE].frame)
  {
    FreeListShape(s.sch, s.c.nr);
    assert Mem.SystemPart(s.c, s.mm.pt[s.sch.cur]);
  }

  lemma ViewStep(s: State, e: Step, m: Mem.Mm, t: nat, va: nat)
    requires Inv(s) && Enabled(s, e) && IsLive(s, t) && t != s.sch.cur && va / PAGE_SIZE >= s.c.DataPage()
    requires m == Next(s, e).mm && t < |m.pt|
    ensures Mem.View(m, t, va) == Mem.View(s.mm, t, va)
  {
    if e.Fork? {
      ForkView(s, e.clk, t, va);
    } else if e.UserWrite? || e.KernelWrite? {
      StoreKeepsData(s, e.va, e.b, t, va);
    } else {
      OnlySwitch(s, e);
    }
  }

  lemma StaysLive(s: State, e: Step, t: nat)
    requires Inv(s) && Enabled(s, e) && Inv(Next(s, e)) && IsLive(s, t) && t != s.sch.cur
    ensures IsLive(Next(s, e), t)
  {
    var free' := FreeAfter(s, e);
    assert Next(s, e).c == s.c by { PidAfter(s, e, 0); }
    ForkTakesFree(s.sch, s.c.nr, free', t);
  }

  lemma ForkTakesFree(sch: RR.Sched, nr: nat, free': seq<nat>, t: nat)
    requires RR.Partition(sch, nr) && t !in sch.q[FREE] && t != sch.cur
    requires free' == sch.q[FREE] + [sch.cur] || free' == sch.q[FREE]
      || (sch.q[FREE] != [] && free' == sch.q[FREE][1..])
    ensures t !in free'
  {
  }

  lemma ForkView(s: State, clk: Clock, t: nat, va: nat)
    requires Inv(s) && Enabled(s, Fork(clk)) && IsLive(s, t) && va / PAGE_SIZE >= s.c.DataPage()
    ensures t < |ForkStep(s, clk).0.mm.pt| && Mem.View(ForkStep(s, clk).0.mm, t, va) == Mem.View(s.mm, t, va)
  {
    ForkStart(s);
    var free, cur := s.sch.q[FREE], s.sch.cur;
    if free != [] {
      if Mem.Fork(s.c, s.mm, cur, free[0]).1 {
        ForkDuplicates(s, clk, va);
      } else {
        Mem.FailedForkKeeps(s.c, s.mm, free, cur, free[0]);
      }
    }
  }

  /** Isolation over every run: as long as a live process does not get the processor it stays live and its data pages
      read the same, whatever the others do. */
  lemma {:induction false} DataIsUntouched(s: State, es: seq<Step>, t: nat, va: nat)
    requires Inv(s) && Runs(s, es) && IsLive(s, t) && t != s.sch.cur && !GetsCpu(s, es, t)
      && va / PAGE_SIZE >= s.c.DataPage()
    ensures IsLive(After(s, es), t) && Mem.View(After(s, es).mm, t, va) == Mem.View(s.mm, t, va)
    decreases |es|
  {
    if es != [] {
      RunHead(s, es);
      ViewStep(s, es[0], Next(s, es[0]).mm, t, va);
      StaysLive(s, es[0], t);
      DataIsUntouched(Next(s, es[0]), es[1..], t, va);
    }
  }
}
