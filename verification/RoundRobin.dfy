/** The round-robin policy: its steps on the queues, and the task partition they keep. */
module RoundRobin {
  import opened Params
  import opened TaskQueues

  /** What scheduling depends on: the lists, the running task, CPU_QUANTUM and the quantum of each PCB. */
  datatype Sched = Sched(q: Queues, cur: nat, cq: int, quantum: seq<int>)

  /** Scheduling steps. A fork that finds no memory still copies the PCB. `Tick.requeue` is the outcome of the test `PID
      != 0` on the running task. */
  datatype Event =
    | Tick(requeue: bool)
    | Fork
    | ForkFailed
    | Exit
    | Block(queue: nat)
    | Unblock(queue: nat, index: nat)
    | Other

  // ---------------------------------------------------------------- operations

  /** sched_next_rr */
  function SchedNext(s: Sched, idle: nat): Sched
    requires |s.q| >= 2
    requires Below(s.q[READY], |s.quantum|)
  {
    var ready := s.q[READY];
    if ready == [] then s.(cur := idle)
    else s.(q := RemoveAt(s.q, READY, 0), cur := ready[0], cq := s.quantum[ready[0]])
  }

  /** update_current_state_rr */
  function UpdateCurrentState(s: Sched, dest: nat): Sched
    requires dest < |s.q|
  {
    s.(q := Append(s.q, dest, s.cur))
  }

  /** Well-typed queues: every queued number is a PCB. */
  ghost predicate Typed(s: Sched, nr: nat)
  {
    && |s.q| >= 2 && |s.quantum| == nr && s.cur < nr
    && forall a :: 0 <= a < |s.q| ==> Below(s.q[a], nr)
  }

  ghost predicate Enabled(s: Sched, nr: nat, e: Event)
  {
    var idle := nr - 1;
    match e
    case Tick(requeue) => requeue == (s.cur != idle)
    case Fork => s.cur != idle && |s.q| > FREE && s.q[FREE] != []
    case ForkFailed => s.cur != idle && |s.q| > FREE && s.q[FREE] != []
    case Exit => s.cur != idle
    case Block(b) => s.cur != idle && 2 <= b < |s.q|
    case Unblock(b, i) => 2 <= b < |s.q| && i < |s.q[b]|
    case Other => true
  }

  /** The lists that the event takes from are there. */
  predicate Possible(s: Sched, e: Event)
    requires |s.q| >= 2
  {
    match e
    case Fork => s.q[FREE] != []
    case ForkFailed => s.q[FREE] != []
    case Block(b) => b < |s.q|
    case Unblock(b, i) => b < |s.q| && i < |s.q[b]|
    case _ => true
  }

  /** One step of the scheduler. */
  ghost function Next(s: Sched, nr: nat, e: Event): Sched
    requires Typed(s, nr) && Possible(s, e)
  {
    var idle := nr - 1;
    match e
    case Tick(requeue) =>
      var s1 := s.(cq := Dec32(s.cq));
      if s1.cq > 0 then s1
      else SchedNext(if requeue then UpdateCurrentState(s1, READY) else s1, idle)
    case Fork =>
      var child := s.q[FREE][0];
      s.(q := Append(RemoveAt(s.q, FREE, 0), READY, child),
         quantum := s.quantum[child := s.quantum[s.cur]])
    case ForkFailed => s.(quantum := s.quantum[s.q[FREE][0] := s.quantum[s.cur]])
    case Exit => SchedNext(UpdateCurrentState(s, FREE), idle)
    case Block(b) => SchedNext(UpdateCurrentState(s, b), idle)
    case Unblock(b, i) =>
      var s1 := s.(q := Append(RemoveAt(s.q, b, i), READY, s.q[b][i]));
      if s1.cq <= 0 then SchedNext(UpdateCurrentState(s1, READY), idle) else s1
    case Other => s
  }

  // ---------------------------------------------------------------- the task partition

  /** Each PCB is exactly one of: running, in one list (once), or -- idle only -- in no list. */
  ghost predicate Partition(s: Sched, nr: nat)
  {
    && 2 <= nr && Typed(s, nr)
    && Disjoint(s.q)
    && !In(s.q, s.cur)
    && (forall a :: 0 <= a < |s.q| && nr - 1 in s.q[a] ==> a == READY)
    && (forall t :: 0 <= t < nr ==> t == s.cur || t == nr - 1 || In(s.q, t))
  }

  /** CPU_QUANTUM never becomes negative while anything other than idle wants the processor. */
  ghost predicate QuantumOk(s: Sched, nr: nat)
    requires Typed(s, nr)
  {
    && (forall t :: 0 <= t < nr ==> 0 <= s.quantum[t] <= INT_MAX)
    && INT_MIN <= s.cq <= INT_MAX
    && (s.q[READY] != [] || s.cur != nr - 1 ==> s.cq >= 0)
  }

  lemma SchedNextKeeps(s: Sched, nr: nat)
    requires 2 <= nr && Typed(s, nr) && Disjoint(s.q)
    requires forall a :: 0 <= a < |s.q| && nr - 1 in s.q[a] ==> a == READY
    requires forall t :: 0 <= t < nr ==> t == nr - 1 || In(s.q, t)
    ensures Partition(SchedNext(s, nr - 1), nr)
    ensures forall a :: 0 <= a < |s.q| && a != READY ==> SchedNext(s, nr - 1).q[a] == s.q[a]
  {
    var s' := SchedNext(s, nr - 1);
    if s.q[READY] != [] {
      RemoveKeeps(s.q, READY, 0);
      forall t | 0 <= t < nr && t != s'.cur && t != nr - 1 ensures In(s'.q, t) {
        assert In(s.q, t);
        var a :| 0 <= a < |s.q| && t in s.q[a];
        assert t in s'.q[a];
      }
    }
  }

  lemma EnqueueKeeps(s: Sched, nr: nat, dest: nat)
    requires Partition(s, nr) && dest < |s.q|
    requires s.cur == nr - 1 ==> dest == READY
    ensures var s' := UpdateCurrentState(s, dest);
      && Typed(s', nr) && Disjoint(s'.q)
      && (forall a :: 0 <= a < |s'.q| && nr - 1 in s'.q[a] ==> a == READY)
      && (forall t :: 0 <= t < nr ==> t == nr - 1 || In(s'.q, t))
  {
    AppendKeeps(s.q, dest, s.cur);
    var s' := UpdateCurrentState(s, dest);
    forall t | 0 <= t < nr && t != nr - 1 ensures In(s'.q, t) {
      if t == s.cur {
        assert t in s'.q[dest];
      } else {
        assert In(s.q, t);
        var a :| 0 <= a < |s.q| && t in s.q[a];
        assert t in s'.q[a];
      }
    }
  }

  /** Moving a queued task to the tail of the ready list. */
  lemma MoveKeeps(s: Sched, nr: nat, b: nat, i: nat)
    requires Partition(s, nr) && b < |s.q| && b != READY && i < |s.q[b]|
    ensures Partition(s.(q := Append(RemoveAt(s.q, b, i), READY, s.q[b][i])), nr)
  {
    var t := s.q[b][i];
    RemoveKeeps(s.q, b, i);
    var r := RemoveAt(s.q, b, i);
    AppendKeeps(r, READY, t);
    var q' := Append(r, READY, t);
    forall u | 0 <= u < nr && u != s.cur && u != nr - 1 ensures In(q', u) {
      assert In(s.q, u);
      var a :| 0 <= a < |s.q| && u in s.q[a];
      assert u in q'[if u == t then READY else a];
    }
  }

  lemma NextKeepsPartition(s: Sched, nr: nat, e: Event)
    requires Partition(s, nr) && Enabled(s, nr, e)
    ensures Partition(Next(s, nr, e), nr)
  {
    match e
    case Tick(requeue) =>
      var s1 := s.(cq := Dec32(s.cq));
      if s1.cq <= 0 {
        if requeue { EnqueueKeeps(s1, nr, READY); SchedNextKeeps(UpdateCurrentState(s1, READY), nr); }
        else { SchedNextKeeps(s1, nr); }
      }
    case Fork => MoveKeeps(s, nr, FREE, 0);
    case ForkFailed =>
    case Exit => EnqueueKeeps(s, nr, FREE); SchedNextKeeps(UpdateCurrentState(s, FREE), nr);
    case Block(b) => EnqueueKeeps(s, nr, b); SchedNextKeeps(UpdateCurrentState(s, b), nr);
    case Unblock(b, i) =>
      MoveKeeps(s, nr, b, i);
      var s1 := s.(q := Append(RemoveAt(s.q, b, i), READY, s.q[b][i]));
      if s1.cq <= 0 { EnqueueKeeps(s1, nr, READY); SchedNextKeeps(UpdateCurrentState(s1, READY), nr); }
    case Other =>
  }

  lemma NextKeepsQuantum(s: Sched, nr: nat, e: Event)
    requires Partition(s, nr) && QuantumOk(s, nr) && Enabled(s, nr, e)
    ensures Typed(Next(s, nr, e), nr) && QuantumOk(Next(s, nr, e), nr)
  {
    NextKeepsPartition(s, nr, e);
  }
}
