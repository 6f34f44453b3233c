/** The kernel on the heap: arrays, pointer lists and registers, each system routine proved to be its step of the state
    machine. */
module Machine {
  import opened Params
  import opened TaskQueues
  import opened Ticks
  import opened Kernel
  import Frames
  import Lists
  import Mmu
  import Mem = Memory
  import RR = RoundRobin
  import KernelRuns
  import Theorems = KernelTheorems
  import Statistics
  import ReadyLine

  class Machine {
    const c: Config
    const phys: array<bool>
    const mmu: Mmu.Memories
    const pool: Lists.Pool
    const task: array<Pcb>
    const quantum: array<int>
    var cur: nat
    var cq: int
    var pidMax: int

    /** The static data of the kernel before boot. */
    constructor (c: Config, phys: array<bool>, mmu: Mmu.Memories, pool: Lists.Pool, task: array<Pcb>,
        quantum: array<int>)
      ensures this.c == c && this.phys == phys && this.mmu == mmu && this.pool == pool && this.task == task
        && this.quantum == quantum
      ensures cur == 0 && cq == 0 && pidMax == 1
    {
      this.c, this.phys, this.mmu, this.pool, this.task, this.quantum := c, phys, mmu, pool, task, quantum;
      cur, cq, pidMax := 0, 0, 1;
    }

    /** Its memory as a value. */
    ghost function AbsMm(): Mem.Mm
      reads phys, mmu
    {
      Mem.Mm(phys[..], mmu.tables, mmu.contents, mmu.cr3, mmu.tlb)
    }

    /** The machine as a value. */
    ghost function Abs(): State
      reads this, phys, mmu, pool, task, quantum
    {
      State(c, AbsMm(), RR.Sched(pool.lists, cur, cq, quantum[..]), task[..], pidMax)
    }

    /** The parts are well formed. */
    ghost predicate Parts()
      reads this, mmu, mmu.pt, mmu.mem, pool, pool.node
    {
      && task as object != quantum as object && task as object != phys as object && quantum as object != phys as object
      && mmu.Valid() && mmu.pt.Length0 == c.nr && mmu.pt.Length1 == c.total == mmu.mem.Length0
      && pool.Valid() && pool.Tasks() == c.nr
      && phys.Length == c.total && task.Length == c.nr == quantum.Length && cur < c.nr
    }

    ghost predicate Valid()
      reads this, phys, mmu, mmu.pt, mmu.mem, pool, pool.node, task, quantum
    {
      Parts() && Inv(Abs())
    }

    /** The accounting of one routine on PCB t. */
    method SetAccount(t: nat, a: Account)
      requires t < task.Length
      modifies task
      ensures task[..] == old(task[..])[t := old(task[t]).(account := a)]
    {
      task[t] := task[t].(account := a);
    }

    /** task_switch: charge the task that leaves, install the directory of the next, continue the next where it
        stopped. */
    method TaskSwitch(next: nat, from: Resume, clk: Clock)
      requires Parts() && next < c.nr && task[next].dir < c.nr
      modifies task, this`cur, mmu`cr3, mmu`tlb
      ensures Parts()
      ensures Abs() == Kernel.TaskSwitch(old(Abs()), old(Abs()).sch.(cur := next), from, clk)
    {
      var prev := task[cur];
      task[cur] := prev.(account := KernelToUser(prev.account, clk.leave), state := StReady, resume := from);
      mmu.SetCr3(task[next].dir);
      var p := task[next];
      match p.resume {
        case FromFork =>
          if next != c.nr - 1 {
            p := p.(account := KernelToUser(p.account, clk.arrive));
          }
        case FromClock =>
          p := p.(account := ReadyToKernel(p.account, clk.arrive), state := StRun);
          p := p.(account := KernelToUser(p.account, clk.back));
        case FromConsole =>
          p := p.(account := ReadyToKernel(p.account, clk.arrive), state := StRun);
        case FromCall =>
          p := p.(account := ReadyToKernel(p.account, clk.arrive), state := StRun);
      }
      task[next] := p;
      cur := next;
    }

    /** sched_next_rr */
    method SchedNext(from: Resume, clk: Clock)
      requires Parts() && pool.heads >= 2 && forall t :: 0 <= t < c.nr && t !in pool.lists[FREE] ==> task[t].dir < c.nr
      requires c.nr - 1 !in pool.lists[FREE] && c.nr >= 1
      modifies task, this`cur, this`cq, mmu`cr3, mmu`tlb, pool, pool.node
      ensures Parts() && Below(old(pool.lists[READY]), c.nr)
      ensures Abs() == Kernel.TaskSwitch(old(Abs()), RR.SchedNext(old(Abs()).sch, c.nr - 1), from, clk)
      ensures ReadyLine.Chosen(old(Abs()).sch, Abs().sch, c.nr - 1)
    {
      assert Below(pool.lists[READY], c.nr);
      ReadyLine.ChoiceLaw(Abs().sch, c.nr - 1);
      Choose(from, clk);
    }

    method Choose(from: Resume, clk: Clock)
      requires Parts() && pool.heads >= 2 && forall t :: 0 <= t < c.nr && t !in pool.lists[FREE] ==> task[t].dir < c.nr
      requires c.nr - 1 !in pool.lists[FREE] && c.nr >= 1
      modifies task, this`cur, this`cq, mmu`cr3, mmu`tlb, pool, pool.node
      ensures Parts() && Below(old(pool.lists[READY]), c.nr)
      ensures Abs() == Kernel.TaskSwitch(old(Abs()), RR.SchedNext(old(Abs()).sch, c.nr - 1), from, clk)
    {
      assert Below(pool.lists[READY], c.nr);
      var empty := pool.ListEmpty(READY);
      if empty {
        TaskSwitch(c.nr - 1, from, clk);
      } else {
        var next := pool.ListFirst(READY);
        pool.Entry(READY, 0);
        assert next in pool.lists[READY];
        pool.ListDel(READY, 0, next);
        cq := quantum[next];
        TaskSwitch(next, from, clk);
      }
    }

    /** update_current_state_rr */
    method UpdateCurrentState(dest: nat)
      requires Parts() && dest < pool.heads && !In(pool.lists, cur)
      modifies pool, pool.node
      ensures Parts() && pool.lists == Append(old(pool.lists), dest, cur)
    {
      pool.Follow(dest, |pool.lists[dest]|);
      pool.ListAddTail(dest, cur);
    }

    /** What the routines rely on, without the rest of the invariant. */
    ghost predicate Usable()
      reads this, phys, mmu, mmu.pt, mmu.mem, pool, pool.node, task, quantum
    {
      && Parts() && Sized(Abs())
      && pool.heads >= 2 && c.nr - 1 !in pool.lists[FREE] && !In(pool.lists, cur)
      && forall t :: 0 <= t < c.nr && t !in pool.lists[FREE] ==> task[t].dir < c.nr
    }

    lemma ValidIsUsable()
      requires Valid()
      ensures Usable()
    {
      assert RR.Partition(Abs().sch, c.nr);
      assert forall t :: 0 <= t < c.nr ==> Abs().pcb[t] == task[t];
    }

    /** The end of a quantum: requeue the running task unless it is idle, and schedule. */
    method Expire(clk: Clock)
      requires Usable()
      modifies this, task, mmu, pool, pool.node
      ensures Parts()
      ensures var s, requeue := old(Abs()), old(task[cur]).pid != 0;
        var sch := if requeue then RR.UpdateCurrentState(s.sch, READY) else s.sch;
        var s1 := if requeue then s else Kernel.Charge(s, s.sch.cur, KernelToUser(s.pcb[s.sch.cur].account, clk.event));
        RR.Typed(sch, c.nr) && Abs() == Kernel.TaskSwitch(s1, RR.SchedNext(sch, c.nr - 1), FromClock, clk)
    {
      if task[cur].pid != 0 {
        UpdateCurrentState(READY);
      } else {
        SetAccount(cur, KernelToUser(task[cur].account, clk.event));
      }
      SchedNext(FromClock, clk);
    }

    /** clock_routine, from update_sched_data on. */
    method Clock(clk: Clock)
      requires Usable()
      modifies this, task, mmu, pool, pool.node
      ensures Parts() && Abs() == TickStep(old(Abs()), clk)
    {
      cq := Dec32(cq);
      if cq <= 0 {
        Expire(clk);
      } else {
        task[cur] := task[cur].(account := KernelToUser(task[cur].account, clk.back), resume := FromClock);
      }
    }

    /** clock_routine, up to the console emulation. */
    method ClockEntry(at: Reads)
      requires Valid()
      modifies task
      ensures Valid() && Abs() == InterruptStep(old(Abs()), at)
    {
      InterruptKeeps(Abs(), at);
      task[cur] := task[cur].(account := UserToKernel(task[cur].account, at), resume := FromConsole);
    }

    method ClockRest(clk: Clock)
      requires Valid()
      modifies this, task, mmu, pool, pool.node
      ensures Valid() && Abs() == TickStep(old(Abs()), clk)
    {
      ValidIsUsable();
      TickKeeps(Abs(), clk);
      Clock(clk);
    }

    /** clock_routine. The console emulation that it calls in the middle may wake a blocked task, here `woken`; if the
        quantum is used up that takes the processor away, and what then remains of the routine waits until its task runs
        again. */
    method ClockRoutine(clk: Clock, wakes: bool, woken: nat, ghost queue: nat, ghost index: nat, wakeClk: Clock)
      requires Valid() && (wakes ==>
          2 <= queue < pool.heads && index < |pool.lists[queue]| && pool.lists[queue][index] == woken)
      modifies this, task, mmu, pool, pool.node
      ensures Valid() && Abs() == ClockStep(old(Abs()), clk, wakes, queue, index, wakeClk)
    {
      ClockEntry(clk.entry);
      if wakes {
        UnblockProcess(woken, queue, index, wakeClk);
      }
      FinishClock(clk);
    }

    method FinishClock(clk: Clock)
      requires Valid()
      modifies this, task, mmu, pool, pool.node
      ensures Valid() && Abs() == RestOfClock(old(Abs()), clk)
    {
      if task[cur].resume.FromConsole? {
        ClockRest(clk);
      }
    }

    /** The search of getStatPID. */
    method GetStatPid(pid: int) returns (r: Mem.Option<nat>)
      ensures r == Theorems.FirstWithPid(task[..], pid)
    {
      var i := 0;
      while i < task.Length
        invariant 0 <= i <= task.Length && forall t :: 0 <= t < i ==> task[t].pid != pid
      {
        if task[i].pid == pid {
          assert task[..][i] == task[i];
          return Mem.Some(i);
        }
        i := i + 1;
      }
      return Mem.None;
    }

    /** The pointer test of sys_get_stats. */
    predicate BadPointer(st: nat)
    {
      st == 0 || st < c.kernel * PAGE_SIZE || st > (c.kernel + c.data + c.code) * PAGE_SIZE
    }

    /** sys_get_stats. `who` is the PCB whose statistics it copies to `st`. A process that asks about itself gets its
        account as it leaves the kernel; a call that faults does not leave it. */
    method GetStats(pid: int, st: nat, clk: Clock, ghost p: Mmu.Places) returns (r: Outcome, ghost who: nat)
      requires cur < task.Length && mmu.Valid() && mmu.Coherent() && Mmu.Gives(mmu.tables[mmu.cr3], p)
      modifies task, mmu`tlb, mmu`contents, mmu.mem
      ensures mmu.Valid() && mmu.Coherent()
      ensures task[..] == if r.Returned? || pid == old(task[cur]).pid then Called(old(Abs()), clk).pcb
        else Entered(old(Abs()), clk).pcb
      ensures r == Answer(old(task[..]), pid, st, Mmu.Mapped(p, old(mmu.contents), st, Statistics.STATS_SIZE))
      ensures Mmu.SameOutside(p, old(mmu.contents), mmu.contents, st, Statistics.STATS_SIZE)
      ensures r == Returned(0) ==>
        && who < task.Length && task[who].pid == pid && Mmu.Mapped(p, old(mmu.contents), st, Statistics.STATS_SIZE)
        && mmu.contents == Mmu.StoreBytes(p, old(mmu.contents), st, Statistics.Encode(task[who].account.st))
      ensures r.Returned? && r != Returned(0) ==> mmu.contents == old(mmu.contents)
    {
      ghost var s := Abs();
      SetAccount(cur, UserToKernel(task[cur].account, clk.entry));
      Theorems.SamePids(s.pcb, task[..], pid);
      assert task[cur] == task[..][cur];
      who := cur;
      if pid >= 0 && !BadPointer(st) {
        r, who := Deliver(pid, st, clk, p);
        return;
      }
      r := Returned(if pid < 0 then -EINVAL else -EFAULT);
      SetAccount(cur, KernelToUser(task[cur].account, clk.back));
    }

    /** sys_get_stats after its checks: the shortcut for the running process, or the scan. */
    method Deliver(pid: int, st: nat, clk: Clock, ghost p: Mmu.Places) returns (r: Outcome, ghost who: nat)
      requires cur < task.Length && mmu.Valid() && mmu.Coherent() && Mmu.Gives(mmu.tables[mmu.cr3], p)
      modifies task, mmu`tlb, mmu`contents, mmu.mem
      ensures mmu.Valid() && mmu.Coherent()
      ensures task[..] == if r.Returned? || pid == old(task[cur]).pid then Left(old(task[..]), clk) else old(task[..])
      ensures r == (if Theorems.FirstWithPid(old(task[..]), pid).None? then Returned(-ESRCH)
                    else if Mmu.Mapped(p, old(mmu.contents), st, Statistics.STATS_SIZE) then Returned(0) else PageFault)
      ensures Mmu.SameOutside(p, old(mmu.contents), mmu.contents, st, Statistics.STATS_SIZE)
      ensures r == Returned(0) ==>
        && who < task.Length && task[who].pid == pid && Mmu.Mapped(p, old(mmu.contents), st, Statistics.STATS_SIZE)
        && mmu.contents == Mmu.StoreBytes(p, old(mmu.contents), st, Statistics.Encode(task[who].account.st))
      ensures r == Returned(-ESRCH) ==> mmu.contents == old(mmu.contents)
    {
      assert task[cur] == task[..][cur];
      if task[cur].pid == pid {
        SetAccount(cur, KernelToUser(task[cur].account, clk.back));
        who := cur;
        var ok := CopyStats(cur, st, p);
        r := if ok then Returned(0) else PageFault;
      } else {
        r, who := FindStats(pid, st, p);
        if r.Returned? {
          SetAccount(cur, KernelToUser(task[cur].account, clk.back));
        }
      }
    }

    /** The PCBs when the running task leaves the kernel. */
    ghost function Left(pcb: seq<Pcb>, clk: Clock): seq<Pcb>
      reads this`cur
      requires cur < |pcb|
    {
      pcb[cur := pcb[cur].(account := KernelToUser(pcb[cur].account, clk.back))]
    }

    /** getStatPID */
    method FindStats(pid: int, st: nat, ghost p: Mmu.Places) returns (r: Outcome, ghost who: nat)
      requires mmu.Valid() && mmu.Coherent() && Mmu.Gives(mmu.tables[mmu.cr3], p)
      modifies mmu`tlb, mmu`contents, mmu.mem
      ensures mmu.Valid() && mmu.Coherent()
      ensures r == (if Theorems.FirstWithPid(task[..], pid).None? then Returned(-ESRCH)
                    else if Mmu.Mapped(p, old(mmu.contents), st, Statistics.STATS_SIZE) then Returned(0) else PageFault)
      ensures Mmu.SameOutside(p, old(mmu.contents), mmu.contents, st, Statistics.STATS_SIZE)
      ensures r == Returned(0) ==>
        && who < task.Length && task[who].pid == pid && Mmu.Mapped(p, old(mmu.contents), st, Statistics.STATS_SIZE)
        && mmu.contents == Mmu.StoreBytes(p, old(mmu.contents), st, Statistics.Encode(task[who].account.st))
      ensures r == Returned(-ESRCH) ==> mmu.contents == old(mmu.contents)
    {
      var t := GetStatPid(pid);
      r, who := Returned(-ESRCH), 0;
      if t.Some? {
        assert task[t.value] == task[..][t.value];
        who := t.value;
        var ok := CopyStats(t.value, st, p);
        r := if ok then Returned(0) else PageFault;
      }
    }

    /** What a record at `st` meets in the address space `p` of the caller. */
    ghost predicate RecordFits(p: Mmu.Places, mem: Mmu.Contents, st: nat)
    {
      c.kernel * PAGE_SIZE <= st ==>
        && (Mmu.Mapped(p, mem, st, Statistics.STATS_SIZE) <==> st + Statistics.STATS_SIZE <= c.WindowPage() * PAGE_SIZE)
        && (Mmu.Mapped(p, mem, st, Statistics.STATS_SIZE) ==> Mmu.OneToOne(p, st, Statistics.STATS_SIZE))
    }

    method AnswerParts(pid: int, st: nat, clk: Clock, ghost p: Mmu.Places) returns (r: Outcome, ghost who: nat)
      requires Parts() && mmu.Coherent() && Mmu.Gives(mmu.tables[mmu.cr3], p) && RecordFits(p, mmu.contents, st)
        && mmu.cr3 == cur
      modifies task, mmu`tlb, mmu`contents, mmu.mem
      ensures Parts() && mmu.Coherent() && Mmu.SameOutside(p, old(mmu.contents), mmu.contents, st,
        Statistics.STATS_SIZE)
      ensures Abs() == Answering(old(Abs()), clk, r.Returned? || pid == old(task[cur]).pid, mmu.contents, mmu.tlb)
      ensures Answered(old(Abs()), pid, st, clk, r, who)
    {
      ghost var before := mmu.contents;
      r, who := GetStats(pid, st, clk, p);
      if r == Returned(0) {
        ReadsBack(AbsMm(), before, cur, p, st, Statistics.Encode(task[who].account.st));
      }
    }

    /** sys_get_stats, called by a user process: it faults exactly if the pointer test lets through a record that ends
        past the last data page. Otherwise the process then reads the record of a PCB with that PID at `st`. */
    method AnswerStats(pid: int, st: nat, clk: Clock) returns (r: Outcome, ghost who: nat)
      requires Valid() && cur != c.nr - 1
      modifies task, mmu`tlb, mmu`contents, mmu.mem
      ensures Valid() && Answered(old(Abs()), pid, st, clk, r, who)
    {
      ghost var s, p := Abs(), Mmu.PlacesOf(mmu.tables[mmu.cr3]);
      Mmu.PlacesAgree(mmu.tables[mmu.cr3]);
      RecordInReach(s, p, st);
      r, who := AnswerParts(pid, st, clk, p);
      AnswerKeeps(s, clk, r.Returned? || pid == s.pcb[cur].pid, mmu.contents, mmu.tlb);
    }

    /** How the call has ended. */
    ghost predicate Answered(s: State, pid: int, st: nat, clk: Clock, r: Outcome, who: nat)
      reads this, phys, mmu, pool, task, quantum
      requires s.sch.cur < |s.pcb|
    {
      && r == Answer(s.pcb, pid, st, st + Statistics.STATS_SIZE <= c.WindowPage() * PAGE_SIZE)
      && AbsMm() == s.mm.(mem := mmu.contents, tlb := mmu.tlb)
      && (r.Returned? ==> Abs() == Called(s, clk).(mm := AbsMm()))
      && (r.Returned? && r != Returned(0) ==> mmu.contents == s.mm.mem)
      && (r == Returned(0) ==>
          who < task.Length && task[who].pid == pid && Reads(st, Statistics.Encode(task[who].account.st)))
    }

    /** ... and while the free PCBs are clean, that PCB is the one live owner of the PID. */
    method SysGetStats(pid: int, st: nat, clk: Clock) returns (r: Outcome, ghost who: nat)
      requires Valid() && cur != c.nr - 1
      modifies task, mmu`tlb, mmu`contents, mmu.mem
      ensures Valid() && Answered(old(Abs()), pid, st, clk, r, who)
      ensures r == Returned(0) && FreePidsClean(Abs()) ==> Theorems.SoleOwner(Abs(), who)
      ensures pid < 0 ==> r == Returned(-EINVAL)
      ensures pid >= 0 && !(c.kernel * PAGE_SIZE <= st <= c.WindowPage() * PAGE_SIZE && st != 0)
        ==> r == Returned(-EFAULT)
      ensures pid >= 0 && c.kernel * PAGE_SIZE <= st <= c.WindowPage() * PAGE_SIZE && st != 0 ==>
        if forall t :: 0 <= t < c.nr ==> old(task[..])[t].pid != pid then r == Returned(-ESRCH)
        else if st + 28 <= c.WindowPage() * PAGE_SIZE then r == Returned(0)
        else r == PageFault
      ensures r.Returned? && r != Returned(0) ==> mmu.contents == old(mmu.contents)
    {
      AnswerCases(task[..], pid, st);
      r, who := AnswerStats(pid, st, clk);
      if r == Returned(0) && FreePidsClean(Abs()) {
        Theorems.OnlyOwner(Abs(), who);
      }
    }

    /** The answers, spelled out: the pointer test refuses everything but the user pages and the address just past
        them. */
    lemma AnswerCases(pcb: seq<Pcb>, pid: int, st: nat)
      ensures var user, r := c.kernel * PAGE_SIZE <= st <= c.WindowPage() * PAGE_SIZE && st != 0,
                             Answer(pcb, pid, st, st + 28 <= c.WindowPage() * PAGE_SIZE);
        && (pid < 0 ==> r == Returned(-EINVAL))
        && (pid >= 0 && !user ==> r == Returned(-EFAULT))
        && (pid >= 0 && user ==>
              if forall t :: 0 <= t < |pcb| ==> pcb[t].pid != pid then r == Returned(-ESRCH)
              else r == if st + 28 <= c.WindowPage() * PAGE_SIZE then Returned(0) else PageFault)
    {
      assert (c.kernel + c.data + c.code) * PAGE_SIZE == c.WindowPage() * PAGE_SIZE;
      var f := Theorems.FirstWithPid(pcb, pid);
      assert f.Some? ==> pcb[f.value].pid == pid;
    }

    /** In the shipped kernel, for a PID that exists: the user pages are 0x100000 to 0x11BFFF. */
    lemma ShippedAnswers(pcb: seq<Pcb>, pid: int, st: nat)
      requires c == ZEOS && pid >= 0 && exists t :: 0 <= t < |pcb| && pcb[t].pid == pid
      ensures var r := Answer(pcb, pid, st, st + 28 <= c.WindowPage() * PAGE_SIZE);
        && (r == Returned(0) <==> 0x100000 <= st && st + 28 <= 0x11C000)
        && (r == Returned(-EFAULT) <==> st < 0x100000 || st > 0x11C000)
    {
      AnswerCases(pcb, pid, st);
    }

    /** The running process reads these bytes at `va`. */
    ghost predicate Reads(va: nat, bytes: seq<Mem.Byte>)
      reads this, phys, mmu
    {
      cur < |mmu.tables| && forall i :: 0 <= i < |bytes| ==> Mem.View(AbsMm(), cur, va + i) == Mem.Some(bytes[i])
    }

    static lemma ReadsBack(m: Mem.Mm, before: Mmu.Contents, t: nat, p: Mmu.Places, va: nat, bytes: seq<Mem.Byte>)
      requires t < |m.pt| && Mmu.Gives(m.pt[t], p) && Mmu.Mapped(p, before, va, |bytes|) && Mmu.OneToOne(p, va, |bytes|)
      requires m.mem == Mmu.StoreBytes(p, before, va, bytes)
      ensures forall i :: 0 <= i < |bytes| ==> Mem.View(m, t, va + i) == Mem.Some(bytes[i])
    {
      forall i | 0 <= i < |bytes| ensures Mem.View(m, t, va + i) == Mem.Some(bytes[i]) {
        Mmu.StoredAt(p, before, va, bytes, i);
        Mmu.ViewIsLoad(m, t, p, va + i);
      }
    }

    static lemma RecordInReach(s: State, p: Mmu.Places, st: nat)
      requires Inv(s) && s.sch.cur != s.c.nr - 1 && Mmu.Gives(s.mm.pt[s.mm.cr3], p)
      ensures s.c.kernel * PAGE_SIZE <= st ==>
        && (Mmu.Mapped(p, s.mm.mem, st, Statistics.STATS_SIZE)
            <==> st + Statistics.STATS_SIZE <= s.c.WindowPage() * PAGE_SIZE)
        && (Mmu.Mapped(p, s.mm.mem, st, Statistics.STATS_SIZE) ==> Mmu.OneToOne(p, st, Statistics.STATS_SIZE))
    {
      ForkStart(s);
      Mem.ParentReady(s.c, s.mm, s.sch.q[FREE], s.sch.cur);
      if s.c.kernel * PAGE_SIZE <= st {
        Mmu.UserRecord(s.c, s.mm.used, s.mm.pt[s.sch.cur], p, s.mm.mem, st, Statistics.STATS_SIZE);
      }
    }

    /** copy_to_user of the statistics of PCB t. */
    method CopyStats(t: nat, st: nat, ghost p: Mmu.Places) returns (ok: bool)
      requires t < task.Length && mmu.Valid() && mmu.Coherent() && Mmu.Gives(mmu.tables[mmu.cr3], p)
      modifies mmu`tlb, mmu`contents, mmu.mem
      ensures mmu.Valid() && mmu.Coherent()
      ensures ok <==> Mmu.Mapped(p, old(mmu.contents), st, Statistics.STATS_SIZE)
      ensures Mmu.SameOutside(p, old(mmu.contents), mmu.contents, st, Statistics.STATS_SIZE)
      ensures ok ==> mmu.contents == Mmu.StoreBytes(p, old(mmu.contents), st, Statistics.Encode(task[t].account.st))
    {
      var bytes := Statistics.Encode(task[t].account.st);
      ghost var done;
      ok, done := mmu.CopyOut(bytes, st, p);
      Mmu.StoredOutside(p, old(mmu.contents), st, bytes, done);
      assert bytes[..|bytes|] == bytes;
    }

    /** How sys_get_stats ends, given whether the whole record at `st` is in reach. */
    function Answer(pcb: seq<Pcb>, pid: int, st: nat, reach: bool): Outcome
    {
      if pid < 0 then Returned(-EINVAL)
      else if BadPointer(st) then Returned(-EFAULT)
      else if Theorems.FirstWithPid(pcb, pid).None? then Returned(-ESRCH)
      else if reach then Returned(0) else PageFault
    }

    /** update_current_state, then sched_next. */
    method LeaveTo(dest: nat, from: Resume, clk: Clock)
      requires Parts() && dest < pool.heads && pool.heads >= 2 && !In(pool.lists, cur) && c.nr >= 2
      requires c.nr - 1 !in pool.lists[FREE] && (dest == FREE ==> cur != c.nr - 1)
      requires forall t :: 0 <= t < c.nr && t !in pool.lists[FREE] ==> task[t].dir < c.nr
      modifies this`cur, this`cq, task, mmu`cr3, mmu`tlb, pool, pool.node
      ensures Parts() && RR.Typed(old(Abs()).sch, c.nr)
      ensures RR.Typed(RR.UpdateCurrentState(old(Abs()).sch, dest), c.nr)
      ensures Abs() == Kernel.TaskSwitch(old(Abs()), RR.SchedNext(RR.UpdateCurrentState(old(Abs()).sch, dest),
        c.nr - 1), from, clk)
    {
      assert RR.Typed(Abs().sch, c.nr);
      UpdateCurrentState(dest);
      SchedNext(from, clk);
    }

    /** block_process */
    method Block(queue: nat, clk: Clock)
      requires Usable() && queue < pool.heads && queue != FREE
      modifies this, task, mmu, pool, pool.node
      ensures Parts() && Abs() == BlockStep(old(Abs()), queue, clk)
    {
      EnterQueue(queue, clk);
      SchedNext(FromCall, clk);
    }

    method EnterQueue(queue: nat, clk: Clock)
      requires Parts() && queue < pool.heads && !In(pool.lists, cur)
      modifies task, pool, pool.node
      ensures Parts() && pool.lists == Append(old(pool.lists), queue, cur)
      ensures task[..] == old(task[..])[cur := old(task[cur]).(account :=
        EnterBlocked(old(task[cur]).account, clk.event), state := StBlocked)]
    {
      UpdateCurrentState(queue);
      task[cur] := task[cur].(account := EnterBlocked(task[cur].account, clk.event), state := StBlocked);
    }

    /** list_del of a queued PCB, then list_add_tail on the ready list. */
    method MoveToReady(t: nat, ghost queue: nat, ghost index: nat)
      requires Parts() && pool.heads >= 2 && queue < pool.heads && index < |pool.lists[queue]|
        && pool.lists[queue][index] == t
      modifies pool, pool.node
      ensures Parts() && pool.lists == Append(RemoveAt(old(pool.lists), queue, index), READY, t)
      ensures forall u :: !In(old(pool.lists), u) ==> !In(pool.lists, u)
    {
      ghost var q := pool.lists;
      assert t in q[queue] && t < c.nr by { assert Below(q[queue], c.nr); }
      RemoveKeeps(q, queue, index);
      pool.Entry(queue, index);
      pool.ListDel(queue, index, t);
      AppendKeeps(pool.lists, READY, t);
      pool.Follow(READY, |pool.lists[READY]|);
      pool.ListAddTail(READY, t);
    }

    /** unblock_process, on the PCB at a position of a blocking queue. */
    method Unblock(t: nat, ghost queue: nat, ghost index: nat, clk: Clock)
      requires Usable() && queue < pool.heads && queue != FREE && index < |pool.lists[queue]|
        && pool.lists[queue][index] == t
      modifies this, task, mmu, pool, pool.node
      ensures Parts() && Abs() == UnblockStep(old(Abs()), queue, index, clk)
    {
      assert Below(pool.lists[queue], c.nr);
      MoveToReady(t, queue, index);
      task[t] := task[t].(account := LeaveBlocked(task[t].account, clk.event), state := StReady);
      if cq <= 0 {
        LeaveTo(READY, if task[cur].resume.FromConsole? then FromConsole else FromCall, clk);
      }
    }

    method BlockProcess(queue: nat, clk: Clock)
      requires Valid() && cur != c.nr - 1 && 2 <= queue < pool.heads
      modifies this, task, mmu, pool, pool.node
      ensures Valid() && Abs() == BlockStep(old(Abs()), queue, clk)
      ensures pool.lists[queue] == old(pool.lists[queue]) + [old(cur)]
    {
      ReadyLine.OtherLists(Abs().sch, c.nr, RR.Block(queue), queue);
      ValidIsUsable();
      BlockKeeps(Abs(), queue, clk);
      Block(queue, clk);
    }

    method UnblockProcess(t: nat, ghost queue: nat, ghost index: nat, clk: Clock)
      requires Valid() && 2 <= queue < pool.heads && index < |pool.lists[queue]| && pool.lists[queue][index] == t
      modifies this, task, mmu, pool, pool.node
      ensures Valid() && Abs() == UnblockStep(old(Abs()), queue, index, clk)
      ensures ReadyLine.Woken(old(Abs()).sch, Abs().sch, t)
    {
      ReadyLine.WakeLaw(Abs().sch, c.nr, queue, index);
      ValidIsUsable();
      UnblockKeeps(Abs(), queue, index, clk);
      Unblock(t, queue, index, clk);
    }

    /** The release loop of sys_exit. */
    method FreeData(dir: nat)
      requires Parts() && c.Valid() && dir < c.nr
      modifies phys
      ensures phys[..] == Frames.FreeAll(c, old(phys[..]), Mem.FramesOf(mmu.tables[dir], c.DataPage(), c.data))
    {
      ghost var frames := Mem.FramesOf(mmu.tables[dir], c.DataPage(), c.data);
      for i := 0 to c.data
        invariant phys[..] == Frames.FreeAll(c, old(phys[..]), frames[..i])
      {
        var f := mmu.GetFrame(dir, c.DataPage() + i);
        assert frames[..i + 1] == frames[..i] + [f];
        Frames.FreeFrame(c, phys, f);
      }
      assert frames[..c.data] == frames;
    }

    /** sys_exit */
    method Exit(clk: Clock)
      requires Usable() && SizedMm(Abs()) && cur != c.nr - 1
      modifies this, task, phys, mmu, pool, pool.node
      ensures Parts() && Abs() == ExitStep(old(Abs()), clk)
    {
      SetAccount(cur, UserToKernel(task[cur].account, clk.entry));
      FreeData(task[cur].dir);
      task[cur] := task[cur].(pid := -1);
      LeaveTo(FREE, FromCall, clk);
    }

    method SysExit(clk: Clock)
      requires Valid() && cur != c.nr - 1
      modifies this, task, phys, mmu, pool, pool.node
      ensures Valid() && Abs() == ExitStep(old(Abs()), clk)
      ensures pool.lists[FREE] == old(pool.lists[FREE]) + [old(cur)]
    {
      ReadyLine.OtherLists(Abs().sch, c.nr, RR.Exit, FREE);
      ValidIsUsable();
      ExitStepKeeps(Abs(), clk);
      Exit(clk);
    }

    /** What fork relies on: the parent's table is the installed one and complete, its frames are in use, and so is the
        frame that is never freed. */
    ghost predicate Forkable()
      reads this, phys, mmu, mmu.pt, mmu.mem, pool, pool.node, task, quantum
    {
      && Usable() && SizedMm(Abs()) && cur < c.nr - 1 && task[cur].dir == cur == mmu.cr3 && mmu.Coherent()
          && phys[c.kernel]
      && Mem.SystemPart(c, mmu.tables[cur]) && Mem.UserPart(c, mmu.tables[cur])
      && (forall p :: 0 <= p < c.total ==> mmu.tables[cur][p].frame < c.total)
      && InUse(Mem.FramesOf(mmu.tables[cur], c.DataPage(), c.data))
      && (pool.lists[FREE] != [] ==> pool.lists[FREE][0] != cur)
    }

    ghost predicate InUse(frames: seq<nat>)
      reads phys
    {
      forall j :: 0 <= j < |frames| ==> frames[j] < phys.Length && phys[frames[j]]
    }

    lemma ValidIsForkable()
      requires Valid() && cur != c.nr - 1
      ensures Forkable()
    {
      ValidIsUsable();
      ForkStart(Abs());
      Mem.ParentReady(c, AbsMm(), pool.lists[FREE], cur);
      assert AbsMm().used == phys[..];
    }

    /** Frames just reserved are distinct and none of them was in use. */
    static lemma ReservedFrames(c: Config, used: seq<bool>, src: seq<nat>)
      requires |used| == c.total && Mmu.AllBelow(src, c.total) && forall j :: 0 <= j < |src| ==> used[src[j]]
      ensures var frames := Frames.AllocFrames(c, used, c.data).frames;
        Mmu.AllBelow(frames, c.total) && Frames.Distinct(frames) && Mmu.NoCommon(src, frames)
      ensures |Frames.AllocFrames(c, used, c.data).frames| == c.data <==> c.data <= Frames.FreeSlots(c, used, c.kernel)
    {
      Frames.AllocFramesSpec(c, used, c.data);
    }

    static lemma LastUpdateWins(pt: seq<Mem.Table>, i: nat, a: Mem.Table, j: nat, b: Mem.Table, d: Mem.Table)
      requires i < |pt| && j < |pt| && i != j
      ensures pt[i := a][j := b][i := d] == pt[j := b][i := d]
    {
    }

    /** The memory part of sys_fork. */
    method ForkMemory(child: nat, ghost src: seq<nat>) returns (ok: bool)
      requires Parts() && c.Valid() && child < c.nr && child != cur == mmu.cr3 && mmu.Coherent() && phys[c.kernel]
      requires Mem.SystemPart(c, mmu.tables[cur]) && Mem.UserPart(c, mmu.tables[cur])
      requires src == Mem.FramesOf(mmu.tables[cur], c.DataPage(), c.data)
      requires InUse(src)
      requires forall p :: 0 <= p < c.total ==> mmu.tables[cur][p].frame < c.total
      modifies phys, mmu, mmu.pt, mmu.mem
      ensures mmu.Valid() && (AbsMm(), ok) == Mem.Fork(c, old(AbsMm()), cur, child)
    {
      ghost var used, pt := phys[..], mmu.tables;
      ReservedFrames(c, used, src);
      mmu.ShareCode(cur, child, c.kernel, c.code);
      var frames;
      ok, frames := Frames.ReserveFrames(c, phys, c.data);
      if ok {
        ghost var shared := Mem.MapPages(pt[child], c.kernel, Mem.FramesOf(pt[cur], c.kernel, c.code));
        LastUpdateWins(pt, child, shared, cur, Mem.UnmapPages(pt[cur], c.WindowPage(), c.data),
                       Mem.MapPages(shared, c.DataPage(), frames));
        mmu.CopyAddressSpace(c, cur, child, frames, src);
      } else {
        Frames.RollbackIsExact(c, used, c.data);
      }
    }

    /** The copy of the parent's PCB, with allocate_DIR. */
    method CopyPcb(child: nat)
      requires Parts() && child < c.nr && child != cur
      modifies task, quantum
      ensures task[..] == old(task[..])[child := old(task[cur]).(dir := child)]
      ensures quantum[..] == old(quantum[..])[child := old(quantum[cur])]
    {
      task[child] := task[cur];
      quantum[child] := quantum[cur];
      task[child] := task[child].(dir := child);
    }

    /** PID and set_ini_stats. */
    method InitChild(child: nat, pid: int, clk: Clock)
      requires Parts() && child < c.nr
      modifies task, this`pidMax
      ensures pidMax == pid
      ensures task[..] == old(task[..])[child := old(task[child]).(pid := pid,
          account := Birth(old(task[child]).account.st, clk.event.first, c.quantum), state := StReady,
              resume := FromFork)]
    {
      pidMax := pid;
      task[child] := task[child].(pid := pid, account := Birth(task[child].account.st, clk.event.first, c.quantum),
          state := StReady, resume := FromFork);
    }

    /** sys_fork */
    method Fork(clk: Clock) returns (r: int)
      requires Forkable()
      modifies this, phys, mmu, mmu.pt, mmu.mem, task, quantum, pool, pool.node
      ensures Parts() && (Abs(), r) == ForkStep(old(Abs()), clk)
    {
      SetAccount(cur, UserToKernel(task[cur].account, clk.entry));
      var empty := pool.ListEmpty(FREE);
      if empty {
        r := -EAGAIN;
      } else {
        var ok;
        ok, r := ForkPcb(clk);
      }
      SetAccount(cur, KernelToUser(task[cur].account, clk.back));
    }

    /** What ForkPcb starts from. */
    ghost predicate ForkPcbReady()
      reads this, phys, mmu, mmu.pt, mmu.mem, pool, pool.node, task, quantum
    {
      && Parts() && c.Valid() && pool.heads >= 2 && cur == mmu.cr3 && mmu.Coherent() && phys[c.kernel]
      && pool.lists[FREE] != [] && pool.lists[FREE][0] != cur && pool.lists[FREE][0] < c.nr
      && Mem.SystemPart(c, mmu.tables[cur]) && Mem.UserPart(c, mmu.tables[cur])
      && (forall p :: 0 <= p < c.total ==> mmu.tables[cur][p].frame < c.total)
      && InUse(Mem.FramesOf(mmu.tables[cur], c.DataPage(), c.data))
    }

    /** sys_fork from the free PCB to the end, but for the accounting of the parent. */
    method ForkPcb(clk: Clock) returns (ok: bool, r: int)
      requires ForkPcbReady()
      modifies this, phys, mmu, mmu.pt, mmu.mem, task, quantum, pool, pool.node
      ensures Parts() && cur == old(cur) && cq == old(cq)
      ensures (AbsMm(), ok) == Mem.Fork(c, old(AbsMm()), cur, old(pool.lists[FREE])[0])
      ensures quantum[..] == old(quantum[..])[old(pool.lists[FREE])[0] := old(quantum[cur])]
      ensures ok ==>
        var child := old(pool.lists[FREE])[0];
        var copy := old(task[cur]).(dir := child);
        && r == Inc32(old(pidMax)) == pidMax
        && pool.lists == Append(RemoveAt(old(pool.lists), FREE, 0), READY, child)
        && task[..] == old(task[..])[child := copy.(pid := r,
            account := Birth(copy.account.st, clk.event.first, c.quantum),
                                                    state := StReady, resume := FromFork)]
      ensures !ok ==>
        var child := old(pool.lists[FREE])[0];
        && r == -ENOMEM && pidMax == old(pidMax) && pool.lists == old(pool.lists)
        && task[..] == old(task[..])[child := old(task[cur]).(dir := child)]
    {
      RemovePrependIsIdentity(pool.lists, FREE);
      var child := PreparePcb();
      ok := ForkMemory(child, Mem.FramesOf(mmu.tables[cur], c.DataPage(), c.data));
      if ok {
        r := Inc32(pidMax);
        InitChild(child, r, clk);
        Enqueue(child);
      } else {
        r := -ENOMEM;
        GiveBack(child);
      }
    }

    /** A free PCB, made a copy of the parent's. */
    method PreparePcb() returns (child: nat)
      requires Parts() && pool.heads >= 2 && pool.lists[FREE] != [] && pool.lists[FREE][0] != cur
      modifies task, quantum, pool, pool.node
      ensures Parts() && child == old(pool.lists[FREE])[0] < c.nr
      ensures pool.lists == RemoveAt(old(pool.lists), FREE, 0) && !In(pool.lists, child)
      ensures task[..] == old(task[..])[child := old(task[cur]).(dir := child)]
      ensures quantum[..] == old(quantum[..])[child := old(quantum[cur])]
    {
      child := TakeFree();
      CopyPcb(child);
    }

    /** list_first and list_del on the free list. */
    method TakeFree() returns (t: nat)
      requires Parts() && pool.heads >= 2 && pool.lists[FREE] != []
      modifies pool, pool.node
      ensures Parts() && t == old(pool.lists[FREE])[0] < c.nr && pool.lists == RemoveAt(old(pool.lists), FREE, 0)
        && !In(pool.lists, t)
    {
      assert Below(pool.lists[FREE], c.nr);
      RemoveKeeps(pool.lists, FREE, 0);
      t := pool.ListFirst(FREE);
      pool.Entry(FREE, 0);
      pool.ListDel(FREE, 0, t);
    }

    /** free_PCB */
    method GiveBack(t: nat)
      requires Parts() && pool.heads >= 2 && t < c.nr && !In(pool.lists, t)
      modifies pool, pool.node
      ensures Parts() && pool.lists == Prepend(old(pool.lists), FREE, t)
    {
      pool.Follow(FREE, 0);
      pool.ListAdd(FREE, t);
    }

    /** list_add_tail on the ready list. */
    method Enqueue(t: nat)
      requires Parts() && pool.heads >= 2 && t < c.nr && !In(pool.lists, t)
      modifies pool, pool.node
      ensures Parts() && pool.lists == Append(old(pool.lists), READY, t)
    {
      pool.Follow(READY, |pool.lists[READY]|);
      pool.ListAddTail(READY, t);
    }

    method SysFork(clk: Clock) returns (r: int)
      requires Valid() && cur != c.nr - 1 && pidMax < INT_MAX
      modifies this, phys, mmu, mmu.pt, mmu.mem, task, quantum, pool, pool.node
      ensures Valid() && (Abs(), r) == ForkStep(old(Abs()), clk)
    {
      ValidIsForkable();
      ForkStepKeeps(Abs(), clk);
      r := Fork(clk);
    }

    // -------------------------------------------------------------- boot

    /** The numbers below n, downwards. */
    static function Down(n: nat): (r: seq<nat>)
      ensures |r| == n && forall i :: 0 <= i < n ==> r[i] == n - 1 - i
    {
      if n == 0 then [] else [n - 1] + Down(n - 1)
    }

    /** A PCB of the zeroed task array. */
    static const ZERO_PCB: Pcb := Pcb(0, 0, NEW_ACCOUNT, StRun, FromCall)

    /** Static data as the loader leaves it. */
    ghost predicate Loaded()
      reads this, mmu, mmu.pt, mmu.mem, pool, pool.node, task, quantum
    {
      && Parts() && c.Valid() && cq == 0 && pidMax == 1
      && pool.heads >= 2 && (forall a :: 0 <= a < pool.heads ==> pool.lists[a] == [])
      && (forall t :: 0 <= t < c.nr ==> task[t] == ZERO_PCB && quantum[t] == 0)
    }

    /** init_sched */
    method InitSched()
      requires Parts() && pool.heads >= 2 && forall a :: 0 <= a < pool.heads ==> pool.lists[a] == []
      requires forall t :: 0 <= t < c.nr ==> task[t] == ZERO_PCB
      modifies task, pool, pool.node
      ensures Parts() && pool.lists == old(pool.lists)[FREE := Down(c.nr)]
      ensures forall t :: 0 <= t < c.nr ==> task[t] == ZERO_PCB.(pid := -1)
    {
      for i := 0 to c.nr
        invariant Parts() && pool.lists == old(pool.lists)[FREE := Down(i)]
        invariant forall t :: 0 <= t < c.nr ==> task[t] == if t < i then ZERO_PCB.(pid := -1) else ZERO_PCB
      {
        task[i] := task[i].(pid := -1);
        assert !In(pool.lists, i);
        GiveBack(i);
      }
    }

    /** set_user_pages is `i` pages along. */
    ghost predicate Filled(t: nat, i: nat, before: seq<Mem.Table>)
      reads this, phys, mmu, mmu.pt, mmu.mem, pool, pool.node
    {
      && Parts() && c.Valid() && i <= c.code + c.data && t < c.nr == |before|
      && mmu.tables == before[t := Mem.PartTable(c, i)]
      && phys[..] == Frames.AllocFrames(c, Frames.InitialFrames(c), i).used
    }

    /** One page of set_user_pages. */
    method FillPage(t: nat, i: nat, rw: bool, ghost before: seq<Mem.Table>)
      requires Filled(t, i, before) && i < c.code + c.data && rw == (i >= c.code)
      modifies phys, mmu.pt, mmu`tables
      ensures Filled(t, i + 1, before)
    {
      Frames.BootStep(c, i);
      Mem.PartTableSteps(c, i);
      var f := Frames.AllocFrame(c, phys);
      mmu.SetEntry(t, c.kernel + i, Mem.Pte(f % 0x10_0000, true, rw, true));
    }

    /** set_user_pages */
    method SetUserPages(t: nat)
      requires Parts() && c.Valid() && t < c.nr && phys[..] == Frames.InitialFrames(c)
        && mmu.tables[t] == Mem.InitialTable(c)
      modifies phys, mmu.pt, mmu`tables
      ensures var a := Frames.AllocFrames(c, Frames.InitialFrames(c), c.code + c.data);
        && Parts() && |a.frames| == c.code + c.data && phys[..] == a.used
        && mmu.tables == old(mmu.tables)[t := Mem.InitTable(c, a.frames)]
    {
      UserPagesDone(c);
      ghost var before := mmu.tables;
      FillPages(t, 0, c.code, false, before);
      FillPages(t, c.code, c.data, true, before);
    }

    /** One of its two loops. */
    method FillPages(t: nat, from: nat, n: nat, rw: bool, ghost before: seq<Mem.Table>)
      requires Filled(t, from, before)
      requires if rw then from == c.code && n == c.data else from == 0 && n == c.code
      modifies phys, mmu.pt, mmu`tables
      ensures Filled(t, from + n, before)
    {
      for pag := 0 to n
        invariant Filled(t, from + pag, before)
      {
        FillPage(t, from + pag, rw, before);
      }
    }

    /** Where set_user_pages starts and ends. */
    static lemma UserPagesDone(c: Config)
      requires c.Valid()
      ensures Mem.PartTable(c, 0) == Mem.InitialTable(c)
      ensures var a := Frames.AllocFrames(c, Frames.InitialFrames(c), c.code + c.data);
        |a.frames| == c.code + c.data && Mem.PartTable(c, c.code + c.data) == Mem.InitTable(c, a.frames)
    {
      Frames.AllocFromBoot(c, c.code + c.data);
      if c.code + c.data > 0 { Mem.PartTableSteps(c, 0); }
      Mem.PartTableEnds(c, Frames.AllocFrames(c, Frames.InitialFrames(c), c.code + c.data).frames);
    }

    /** init_idle */
    method InitIdle(birth: word)
      requires Parts() && pool.heads >= 2 && pool.lists[FREE] == Down(c.nr) && c.nr >= 2
        && task[c.nr - 1] == ZERO_PCB.(pid := -1)
      modifies task, pool, pool.node
      ensures Parts() && pool.lists == old(pool.lists)[FREE := Down(c.nr - 1)]
      ensures task[..] == old(task[..])[c.nr - 1 := Pcb(0, c.nr - 1, Birth(NEW_ACCOUNT.st, birth, c.quantum), StReady,
        FromFork)]
    {
      var idle := TakeFree();
      task[idle] := task[idle].(pid := 0, dir := idle, account := Birth(task[idle].account.st, birth, c.quantum),
                                state := StReady, resume := FromFork);
      assert Down(c.nr)[..0] + Down(c.nr)[1..] == Down(c.nr - 1);
    }

    /** The memory of the initial process, and its directory. */
    method LoadInit(init: nat)
      requires Parts() && c.Valid() && init == c.Init()
      requires phys[..] == Frames.InitialFrames(c) && mmu.tables == seq(c.nr, _ => Mem.InitialTable(c))
      modifies phys, mmu, mmu.pt
      ensures |Frames.AllocFrames(c, Frames.InitialFrames(c), c.code + c.data).frames| == c.code + c.data
      ensures Parts() && AbsMm() == Mem.Boot(c, old(mmu.contents))
    {
      UserPagesDone(c);
      OneLoaded(c, Frames.AllocFrames(c, Frames.InitialFrames(c), c.code + c.data).frames);
      SetUserPages(init);
      mmu.SetCr3(init);
    }

    static lemma OneLoaded(c: Config, frames: seq<nat>)
      requires c.Valid() && |frames| == c.code + c.data
      ensures seq(c.nr, _ => Mem.InitialTable(c))[c.Init() := Mem.InitTable(c, frames)] == Mem.BootTables(c, frames)
    {
    }

    static function InitPcb(c: Config, birth: word): Pcb
      requires c.nr >= 2
    {
      Pcb(1, c.nr - 2, Account(Stats(0, 0, 0, 0, birth, 0, 0), Ledger(birth, 0, 0, 0)), StRun, FromCall)
    }

    /** init_task1 */
    method InitTask1(birth: word)
      requires Parts() && c.Valid() && pool.heads >= 2 && pool.lists[FREE] == Down(c.nr - 1)
        && task[c.nr - 2] == ZERO_PCB.(pid := -1)
      requires phys[..] == Frames.InitialFrames(c) && mmu.tables == seq(c.nr, _ => Mem.InitialTable(c))
      modifies this`cur, phys, mmu, mmu.pt, task, quantum, pool, pool.node
      ensures |Frames.AllocFrames(c, Frames.InitialFrames(c), c.code + c.data).frames| == c.code + c.data
      ensures Parts() && pool.lists == old(pool.lists)[FREE := Down(c.nr - 2)] && cur == c.nr - 2
      ensures AbsMm() == Mem.Boot(c, old(mmu.contents))
      ensures quantum[..] == old(quantum[..])[c.nr - 2 := c.quantum]
        && task[..] == old(task[..])[c.nr - 2 := InitPcb(c, birth)]
    {
      var init := TakeFree();
      assert Down(c.nr - 1)[..0] + Down(c.nr - 1)[1..] == Down(c.nr - 2);
      task[init] := task[init].(pid := 1, dir := init);
      LoadInit(init);
      StartInit(init, birth);
    }

    method StartInit(init: nat, birth: word)
      requires c.nr >= 2 && init == c.nr - 2 < task.Length && init < quantum.Length
        && task[init] == ZERO_PCB.(pid := 1, dir := init)
      modifies this`cur, task, quantum
      ensures cur == init && task[..] == old(task[..])[init := InitPcb(c, birth)]
        && quantum[..] == old(quantum[..])[init := c.quantum]
    {
      quantum[init] := c.quantum;
      task[init] := task[init].(account := InitPcb(c, birth).account, state := StRun);
      cur := init;
    }

    /** The pieces make up the boot state. */
    static lemma BootMatches(c: Config, mem: Mmu.Contents, q: Queues, quantum: seq<int>, pcb: seq<Pcb>, idleBirth: word,
        initBirth: word)
      requires c.Valid() && |Frames.AllocFrames(c, Frames.InitialFrames(c), c.code + c.data).frames| == c.code + c.data
      requires |q| >= 2 && q[FREE] == Down(c.nr - 2) && forall a :: 0 < a < |q| ==> q[a] == []
      requires |quantum| == |pcb| == c.nr
      requires forall t :: 0 <= t < c.nr ==> quantum[t] == if t == c.nr - 2 then c.quantum else 0
      requires pcb[c.nr - 1] == Pcb(0, c.nr - 1, Birth(NEW_ACCOUNT.st, idleBirth, c.quantum), StReady, FromFork)
      requires pcb[c.nr - 2] == InitPcb(c, initBirth)
      requires forall t :: 0 <= t < c.nr - 2 ==> pcb[t] == ZERO_PCB.(pid := -1)
      ensures State(c, Mem.Boot(c, mem), RR.Sched(q, c.nr - 2, 0, quantum), pcb, 1)
           == KernelRuns.Boot(c, mem, |q| - 2, idleBirth, initBirth)
    {
      var s := KernelRuns.Boot(c, mem, |q| - 2, idleBirth, initBirth);
      assert Down(c.nr - 2) == KernelRuns.BootFree(c);
      assert q == s.sch.q;
      assert quantum == s.sch.quantum;
      assert pcb == s.pcb;
    }

    /** init_mm */
    method InitMm()
      requires Parts() && c.Valid()
      modifies phys, mmu, mmu.pt
      ensures Parts() && mmu.contents == old(mmu.contents)
      ensures phys[..] == Frames.InitialFrames(c) && mmu.tables == seq(c.nr, _ => Mem.InitialTable(c))
    {
      mmu.InitTablePages(c);
      Frames.InitFrames(c, phys);
      mmu.SetCr3(0);
    }

    /** init_sched and init_idle. */
    method InitQueues(idleBirth: word)
      requires Parts() && c.nr >= 2 && pool.heads >= 2 && forall a :: 0 <= a < pool.heads ==> pool.lists[a] == []
      requires forall t :: 0 <= t < c.nr ==> task[t] == ZERO_PCB
      modifies task, pool, pool.node
      ensures Parts() && pool.lists[FREE] == Down(c.nr - 1) && forall a :: 0 < a < pool.heads ==> pool.lists[a] == []
      ensures task[c.nr - 1] == Pcb(0, c.nr - 1, Birth(NEW_ACCOUNT.st, idleBirth, c.quantum), StReady, FromFork)
      ensures forall t :: 0 <= t < c.nr - 1 ==> task[t] == ZERO_PCB.(pid := -1)
    {
      InitSched();
      InitIdle(idleBirth);
    }

    /** The routines of main, in order. */
    method InitAll(idleBirth: word, initBirth: word)
      requires Loaded()
      modifies this`cur, phys, mmu, mmu.pt, task, quantum, pool, pool.node
      ensures |Frames.AllocFrames(c, Frames.InitialFrames(c), c.code + c.data).frames| == c.code + c.data
      ensures Parts() && Abs() == KernelRuns.Boot(c, old(mmu.contents), pool.heads - 2, idleBirth, initBirth)
    {
      InitMm();
      InitQueues(idleBirth);
      InitTask1(initBirth);
      BootMatches(c, mmu.contents, pool.lists, quantum[..], task[..], idleBirth, initBirth);
    }

    /** main, up to the entry into user mode. */
    method Boot(idleBirth: word, initBirth: word)
      requires Loaded()
      modifies this`cur, phys, mmu, mmu.pt, task, quantum, pool, pool.node
      ensures |Frames.AllocFrames(c, Frames.InitialFrames(c), c.code + c.data).frames| == c.code + c.data
      ensures Valid() && Abs() == KernelRuns.Boot(c, old(mmu.contents), pool.heads - 2, idleBirth, initBirth)
    {
      assert mmu.Valid();
      KernelRuns.BootInv(c, mmu.contents, pool.heads - 2, idleBirth, initBirth);
      InitAll(idleBirth, initBirth);
    }
  }

  /** The memory of a machine that has just been switched on. */
  ghost function Zeros(c: Config): (mem: seq<seq<Mem.Byte>>)
    ensures |mem| == c.total && Mmu.WholeFrames(mem)
    ensures forall f, o :: 0 <= f < c.total && 0 <= o < PAGE_SIZE ==> mem[f][o] == 0
  {
    seq(c.total, _ => seq(PAGE_SIZE, _ => 0))
  }

  /** From nothing to user mode, for any valid configuration: the static data as the loader leaves it, then main. */
  method PowerOn(c: Config, queues: nat, idleBirth: word, initBirth: word) returns (m: Machine)
    requires c.Valid()
    ensures m.c == c && m.pool.heads == queues + 2
    ensures |Frames.AllocFrames(c, Frames.InitialFrames(c), c.code + c.data).frames| == c.code + c.data
    ensures m.Valid() && m.Abs() == KernelRuns.Boot(c, Zeros(c), queues, idleBirth, initBirth)
  {
    Mem.BootFrames(c);
    m := Load(c, queues);
    m.Boot(idleBirth, initBirth);
  }

  method Load(c: Config, queues: nat) returns (m: Machine)
    requires c.Valid()
    ensures fresh(m) && fresh(m.phys) && fresh(m.mmu) && fresh(m.mmu.pt) && fresh(m.task) && fresh(m.quantum)
    ensures fresh(m.pool) && fresh(m.pool.node)
    ensures m.c == c && m.pool.heads == queues + 2 && m.mmu.contents == Zeros(c) && m.Loaded()
  {
    var phys := new bool[c.total];
    var mem := new Mem.Byte[c.total, PAGE_SIZE]((f, o) => 0);
    var mmu := new Mmu.Memories(c.nr, c.total, mem, Zeros(c));
    var pool := new Lists.Pool(queues + 2, c.nr);
    var task := new Pcb[c.nr](_ => Machine.ZERO_PCB);
    var quantum := new int[c.nr](_ => 0);
    m := new Machine(c, phys, mmu, pool, task, quantum);
  }
}
