/** Who gets the processor, for how long, and in which order the lists are served: laws of the scheduler that mention
    none of its operations. */
module ReadyLine {
  import opened Params
  import opened TaskQueues
  import opened RoundRobin
  import BW = BoundedWaiting

  /** The event makes the kernel choose a task: the running one leaves, or its quantum is used up. */
  predicate Chooses(s: Sched, e: Event)
  {
    match e
    case Tick(_) => s.cq <= 1 && s.cq != INT_MIN
    case Unblock(_, _) => s.cq <= 0
    case _ => e.Exit? || e.Block?
  }

  /** The tasks that line up at the end of the ready list, the first of them foremost. A woken task stands in front of
      the one it preempts. */
  ghost function Joins(s: Sched, nr: nat, e: Event): seq<nat>
    requires Partition(s, nr) && Enabled(s, nr, e)
  {
    match e
    case Tick(_) => if Chooses(s, e) && s.cur != nr - 1 then [s.cur] else []
    case Fork => [s.q[FREE][0]]
    case Unblock(b, i) => if Chooses(s, e) then [s.q[b][i], s.cur] else [s.q[b][i]]
    case _ => []
  }

  /** CPU_QUANTUM is as it was, but for the decrement of a tick. */
  ghost predicate Spent(s: Sched, s': Sched, e: Event)
  {
    s'.cq == if !e.Tick? then s.cq else if s.cq == INT_MIN then INT_MAX else s.cq - 1
  }

  /** The law of dispatch. When the kernel chooses, the foremost task of the line gets the processor and its own
      quantum, whole; when nobody is in line, idle gets it and CPU_QUANTUM runs on. Otherwise the running task keeps
      both. */
  lemma DispatchLaw(s: Sched, nr: nat, e: Event)
    requires Partition(s, nr) && Enabled(s, nr, e)
    ensures var s', line := Next(s, nr, e), s.q[READY] + Joins(s, nr, e);
      && |s'.q| == |s.q| && s'.cur < |s'.quantum| == nr
      && (Chooses(s, e) && line != [] ==> [s'.cur] + s'.q[READY] == line && s'.cq == s'.quantum[s'.cur])
      && (Chooses(s, e) && line == [] ==> s'.cur == nr - 1 && s'.q[READY] == [] && Spent(s, s', e))
      && (!Chooses(s, e) ==> s'.cur == s.cur && s'.q[READY] == line && Spent(s, s', e))
  {
    NextKeepsPartition(s, nr, e);
    match e
    case Tick(requeue) =>
      var s1 := s.(cq := Dec32(s.cq));
      if Chooses(s, e) { ChoiceLaw(if requeue then UpdateCurrentState(s1, READY) else s1, nr - 1); }
    case Unblock(b, i) =>
      var s1 := s.(q := Append(RemoveAt(s.q, b, i), READY, s.q[b][i]));
      assert s1.q[READY] + [s.cur] == s.q[READY] + [s.q[b][i], s.cur];
      if Chooses(s, e) { ChoiceLaw(UpdateCurrentState(s1, READY), nr - 1); }
    case Exit => ChoiceLaw(UpdateCurrentState(s, FREE), nr - 1);
    case Block(b) => ChoiceLaw(UpdateCurrentState(s, b), nr - 1);
    case _ =>
  }

  /** What choosing means: the foremost task of the ready list with its own quantum, or idle with what there is. */
  ghost predicate Chosen(s: Sched, s': Sched, idle: nat)
  {
    && |s.q| == |s'.q| >= 2 && s'.quantum == s.quantum
    && (s.q[READY] != [] ==>
          [s'.cur] + s'.q[READY] == s.q[READY] && s'.cur < |s.quantum| && s'.cq == s.quantum[s'.cur])
    && (s.q[READY] == [] ==> s' == s.(cur := idle))
  }

  lemma ChoiceLaw(s: Sched, idle: nat)
    requires |s.q| >= 2 && Below(s.q[READY], |s.quantum|)
    ensures Chosen(s, SchedNext(s, idle), idle)
  {
  }

  /** What waking `t` means: it lines up, and if the quantum is used up the running task lines up behind it and the
      foremost task runs. */
  ghost predicate Woken(s: Sched, s': Sched, t: nat)
  {
    && |s.q| == |s'.q| >= 2
    && (s.cq > 0 ==> s'.cur == s.cur && s'.cq == s.cq && s'.q[READY] == s.q[READY] + [t])
    && (s.cq <= 0 ==>
          && [s'.cur] + s'.q[READY] == s.q[READY] + [t, s.cur]
          && s'.cur < |s'.quantum| && s'.cq == s'.quantum[s'.cur])
  }

  lemma WakeLaw(s: Sched, nr: nat, b: nat, i: nat)
    requires Partition(s, nr) && Enabled(s, nr, Unblock(b, i))
    ensures Woken(s, Next(s, nr, Unblock(b, i)), s.q[b][i])
  {
    DispatchLaw(s, nr, Unblock(b, i));
  }

  /** A wake-up that finds an empty ready list and a used-up quantum hands the processor to the woken task at once. */
  lemma WokenRunsAtOnce(s: Sched, nr: nat, b: nat, i: nat)
    requires Partition(s, nr) && Enabled(s, nr, Unblock(b, i)) && s.cq <= 0 && s.q[READY] == []
    ensures var s' := Next(s, nr, Unblock(b, i));
      s'.cur == s.q[b][i] && s'.q[READY] == [s.cur] && s'.cq == s.quantum[s'.cur]
  {
    DispatchLaw(s, nr, Unblock(b, i));
    var s' := Next(s, nr, Unblock(b, i));
    assert ([s'.cur] + s'.q[READY])[1..] == s'.q[READY];
  }

  /** The other lists: who leaves stands at the end, in the free list or in the blocking queue; fork takes the foremost
      free PCB; a wake-up takes one task out and leaves the order of the others. */
  lemma OtherLists(s: Sched, nr: nat, e: Event, a: nat)
    requires Partition(s, nr) && Enabled(s, nr, e) && a < |s.q| && a != READY
    ensures var s' := Next(s, nr, e);
      && |s'.q| == |s.q|
      && (e == Exit && a == FREE ==> s'.q[a] == s.q[a] + [s.cur])
      && (e == Block(a) ==> s'.q[a] == s.q[a] + [s.cur])
      && (e == Fork && a == FREE ==> [s.q[a][0]] + s'.q[a] == s.q[a])
      && (e.Unblock? && e.queue == a ==> s'.q[a] == s.q[a][..e.index] + s.q[a][e.index + 1..])
      && (!(e == Exit && a == FREE) && e != Block(a) && !(e == Fork && a == FREE) && !(e.Unblock? && e.queue == a) ==>
            s'.q[a] == s.q[a])
  {
  }

  /** Quanta: a child inherits the parent's, nothing else changes. */
  lemma Quanta(s: Sched, nr: nat, e: Event, t: nat)
    requires Partition(s, nr) && Enabled(s, nr, e) && t < nr
    ensures var s', copied := Next(s, nr, e), (e.Fork? || e.ForkFailed?) && t == s.q[FREE][0];
      |s'.quantum| == nr && s'.quantum[t] == s.quantum[if copied then s.cur else t]
  {
  }

  // ---------------------------------------------------------------- whole runs

  /** Everybody who lined up in the run, in order. */
  ghost function Joined(s: Sched, nr: nat, es: seq<Event>): seq<nat>
    requires Partition(s, nr) && BW.Runs(s, nr, es)
    decreases |es|
  {
    if es == [] then []
    else
      NextKeepsPartition(s, nr, es[0]);
      Joins(s, nr, es[0]) + Joined(Next(s, nr, es[0]), nr, es[1..])
  }

  /** Everybody who got the processor from the ready list in the run, in order. */
  ghost function Served(s: Sched, nr: nat, es: seq<Event>): seq<nat>
    requires Partition(s, nr) && BW.Runs(s, nr, es)
    decreases |es|
  {
    if es == [] then []
    else
      NextKeepsPartition(s, nr, es[0]);
      var s' := Next(s, nr, es[0]);
      (if Chooses(s, es[0]) && s.q[READY] + Joins(s, nr, es[0]) != [] then [s'.cur] else []) + Served(s', nr, es[1..])
  }

  /** First in, first out, over every run: the tasks that got the processor, followed by those still waiting, are the
      tasks that were waiting followed by those that lined up. */
  lemma {:induction false} FirstInFirstOut(s: Sched, nr: nat, es: seq<Event>)
    requires Partition(s, nr) && BW.Runs(s, nr, es)
    ensures Served(s, nr, es) + BW.After(s, nr, es).q[READY] == s.q[READY] + Joined(s, nr, es)
    decreases |es|
  {
    if es != [] {
      var s', e, rest := Next(s, nr, es[0]), es[0], es[1..];
      NextKeepsPartition(s, nr, e);
      DispatchLaw(s, nr, e);
      FirstInFirstOut(s', nr, rest);
      var served := if Chooses(s, e) && s.q[READY] + Joins(s, nr, e) != [] then [s'.cur] else [];
      assert served + s'.q[READY] == s.q[READY] + Joins(s, nr, e);
      Regroup(served, s'.q[READY], s.q[READY], Joins(s, nr, e), Served(s', nr, rest), BW.After(s', nr, rest).q[READY],
              Joined(s', nr, rest));
    }
  }

  lemma Regroup(a: seq<nat>, ready': seq<nat>, ready: seq<nat>, j: seq<nat>, b: seq<nat>, last: seq<nat>, k: seq<nat>)
    requires a + ready' == ready + j && b + last == ready' + k
    ensures (a + b) + last == ready + (j + k)
  {
    assert (a + b) + last == a + (b + last);
    assert a + (ready' + k) == (a + ready') + k;
  }
}
