/** Round-robin bounded waiting: an exact ranking of the ready list, and what it gives over whole runs. */
module BoundedWaiting {
  import opened Params
  import opened TaskQueues
  import opened RoundRobin

  function Max1(x: int): nat
  {
    if x < 1 then 1 else x
  }

  /** Ticks the tasks of `s` hold the processor for, one after the other. */
  function Turns(quantum: seq<int>, s: seq<nat>): nat
    requires Below(s, |quantum|)
  {
    if s == [] then 0 else Max1(quantum[s[0]]) + Turns(quantum, s[1..])
  }

  /** Ticks until the task at position `k` of the ready list gets the processor. */
  ghost function Rank(s: Sched, nr: nat, k: nat): nat
    requires Typed(s, nr) && k < |s.q[READY]|
  {
    Max1(s.cq) + Turns(s.quantum, s.q[READY][..k])
  }

  lemma {:induction false} TurnsFrame(q1: seq<int>, q2: seq<int>, s: seq<nat>)
    requires Below(s, |q1|) && Below(s, |q2|)
    requires forall i :: 0 <= i < |s| ==> q1[s[i]] == q2[s[i]]
    ensures Turns(q1, s) == Turns(q2, s)
  {
    if s != [] { TurnsFrame(q1, q2, s[1..]); }
  }

  lemma {:induction false} TurnsBound(quantum: seq<int>, s: seq<nat>, bound: nat)
    requires Below(s, |quantum|) && forall i :: 0 <= i < |s| ==> quantum[s[i]] <= bound
    requires 1 <= bound
    ensures |s| <= Turns(quantum, s) <= bound * |s|
  {
    if s != [] {
      TurnsBound(quantum, s[1..], bound);
      assert bound * |s| == bound * |s[1..]| + bound;
    }
  }

  lemma {:induction false} TurnsBoundBelow(quantum: seq<int>, s: seq<nat>)
    requires Below(s, |quantum|)
    ensures |s| <= Turns(quantum, s)
  {
    if s != [] { TurnsBoundBelow(quantum, s[1..]); }
  }

  /** `p`, waiting at `k` in `s`, still waits in `s'` with only tasks that were already ahead of it in front, in the
      same order. */
  ghost predicate StillWaiting(s: Sched, k: nat, s': Sched, k': nat)
  {
    && |s.q| >= 2 && |s'.q| >= 2
    && k' <= k < |s.q[READY]| && k' < |s'.q[READY]|
    && s'.q[READY][..k' + 1] == s.q[READY][k - k'..k + 1]
  }

  /** Dispatching the head: rank falls by the whole turn of the task that leaves the processor. */
  lemma SchedNextRank(s: Sched, nr: nat, k: nat)
    requires Typed(s, nr) && 2 <= nr && k < |s.q[READY]|
    ensures var s' := SchedNext(s, nr - 1);
      if k == 0 then s'.cur == s.q[READY][0]
      else Typed(s', nr) && StillWaiting(s, k, s', k - 1) && Rank(s', nr, k - 1) + Max1(s.cq) == Rank(s, nr, k)
  {
    var s', ready := SchedNext(s, nr - 1), s.q[READY];
    assert s'.q[READY] == ready[1..];
    if k > 0 {
      assert ready[..k][1..] == ready[1..][..k - 1];
      assert ready[1..][..k] == ready[1..k + 1];
    }
  }

  /** Appending at the tail does not touch what is ahead of `k`. */
  lemma AppendRank(s: Sched, s1: Sched, nr: nat, k: nat)
    requires Typed(s, nr) && Typed(s1, nr) && k < |s.q[READY]| && s.cq == s1.cq
    requires s.q[READY] <= s1.q[READY]
    requires forall i :: 0 <= i < |s.q[READY]| ==> s1.quantum[s.q[READY][i]] == s.quantum[s.q[READY][i]]
    ensures Rank(s1, nr, k) == Rank(s, nr, k) && StillWaiting(s, k, s1, k)
  {
    assert s1.q[READY][..k + 1] == s.q[READY][0..k + 1];
    assert s1.q[READY][..k] == s.q[READY][..k];
    TurnsFrame(s.quantum, s1.quantum, s.q[READY][..k]);
  }

  lemma AppendThenNextRank(s: Sched, s1: Sched, nr: nat, k: nat)
    requires 2 <= nr && Typed(s, nr) && Typed(s1, nr) && k < |s.q[READY]| && s.cq == s1.cq
    requires s.q[READY] <= s1.q[READY]
    requires forall i :: 0 <= i < |s.q[READY]| ==> s1.quantum[s.q[READY][i]] == s.quantum[s.q[READY][i]]
    ensures var s' := SchedNext(s1, nr - 1);
      if k == 0 then s'.cur == s.q[READY][0]
      else Typed(s', nr) && StillWaiting(s, k, s', k - 1) && Rank(s', nr, k - 1) + Max1(s.cq) == Rank(s, nr, k)
  {
    AppendRank(s, s1, nr, k);
    SchedNextRank(s1, nr, k);
    if k > 0 {
      var s' := SchedNext(s1, nr - 1);
      assert s'.q[READY][..k] == s1.q[READY][1..k + 1] == s.q[READY][1..k + 1];
    }
  }

  /** What a step other than a tick does to a waiting task: dispatch it, or keep it waiting with a rank that did not
      rise. */
  ghost predicate Progress(s: Sched, nr: nat, k: nat, s': Sched, k': nat, drop: nat)
    requires Typed(s, nr) && Typed(s', nr) && k < |s.q[READY]|
  {
    || s'.cur == s.q[READY][k]
    || (StillWaiting(s, k, s', k') && Rank(s', nr, k') + drop <= Rank(s, nr, k))
  }

  lemma TickRank(s: Sched, nr: nat, e: Event, k: nat) returns (k': nat)
    requires Partition(s, nr) && QuantumOk(s, nr) && Enabled(s, nr, e) && e.Tick? && k < |s.q[READY]|
    ensures Typed(Next(s, nr, e), nr)
    ensures var s' := Next(s, nr, e);
      if Rank(s, nr, k) == 1 then s'.cur == s.q[READY][k]
      else s'.cur != s.q[READY][k] && StillWaiting(s, k, s', k') && Rank(s', nr, k') == Rank(s, nr, k) - 1
  {
    NextKeepsPartition(s, nr, e);
    var s1, ready := s.(cq := Dec32(s.cq)), s.q[READY];
    TurnsBoundBelow(s.quantum, ready[..k]);
    assert ready[k] in ready;
    k' := k;
    if s1.cq > 0 {
      AppendRank(s1, s1, nr, k);
    } else {
      var s2 := if e.requeue then UpdateCurrentState(s1, READY) else s1;
      AppendThenNextRank(s1, s2, nr, k);
      if k > 0 {
        k' := k - 1;
        assert Next(s, nr, e).cur == ready[0] != ready[k];
      }
    }
  }

  lemma LeaveRank(s: Sched, nr: nat, dest: nat, k: nat) returns (k': nat)
    requires Partition(s, nr) && dest < |s.q| && k < |s.q[READY]|
    ensures Typed(UpdateCurrentState(s, dest), nr) && Typed(SchedNext(UpdateCurrentState(s, dest), nr - 1), nr)
    ensures Progress(s, nr, k, SchedNext(UpdateCurrentState(s, dest), nr - 1), k', 0)
  {
    AppendThenNextRank(s, UpdateCurrentState(s, dest), nr, k);
    k' := if k > 0 then k - 1 else 0;
  }

  lemma UnblockRank(s: Sched, nr: nat, b: nat, i: nat, k: nat) returns (k': nat)
    requires Partition(s, nr) && Enabled(s, nr, Unblock(b, i)) && k < |s.q[READY]|
    ensures Typed(Next(s, nr, Unblock(b, i)), nr)
    ensures Progress(s, nr, k, Next(s, nr, Unblock(b, i)), k', if s.cq <= 0 then 1 else 0)
  {
    MoveKeeps(s, nr, b, i);
    NextKeepsPartition(s, nr, Unblock(b, i));
    var s1 := s.(q := Append(RemoveAt(s.q, b, i), READY, s.q[b][i]));
    AppendRank(s, s1, nr, k);
    k' := k;
    if s1.cq <= 0 {
      AppendThenNextRank(s, UpdateCurrentState(s1, READY), nr, k);
      k' := if k > 0 then k - 1 else 0;
    }
  }

  lemma ForkRank(s: Sched, nr: nat, e: Event, k: nat)
    requires Partition(s, nr) && (e == Fork || e == ForkFailed) && Enabled(s, nr, e) && k < |s.q[READY]|
    ensures Typed(Next(s, nr, e), nr)
    ensures Progress(s, nr, k, Next(s, nr, e), k, 0)
  {
    NextKeepsPartition(s, nr, e);
    assert forall i :: 0 <= i < |s.q[READY]| ==> s.q[READY][i] in s.q[READY];
    assert s.q[FREE][0] in s.q[FREE];
    AppendRank(s, Next(s, nr, e), nr, k);
  }

  /** The events that move the ready list on by at least one tick: a tick, and an unblock that takes the processor
      away. */
  predicate Beat(s: Sched, e: Event)
  {
    e.Tick? || (e.Unblock? && s.cq <= 0)
  }

  /** Every step either gives the waiting task the processor or keeps it waiting in FIFO order, and a beat then lowers
      its rank by at least one while no other step raises it. */
  lemma StepRank(s: Sched, nr: nat, e: Event, k: nat) returns (k': nat)
    requires Partition(s, nr) && QuantumOk(s, nr) && Enabled(s, nr, e) && k < |s.q[READY]|
    ensures Typed(Next(s, nr, e), nr)
    ensures Progress(s, nr, k, Next(s, nr, e), k', if Beat(s, e) then 1 else 0)
  {
    k' := k;
    match e
    case Tick(_) => k' := TickRank(s, nr, e, k);
    case Fork => ForkRank(s, nr, e, k);
    case ForkFailed => ForkRank(s, nr, e, k);
    case Exit => k' := LeaveRank(s, nr, FREE, k);
    case Block(b) => k' := LeaveRank(s, nr, b, k);
    case Unblock(b, i) => k' := UnblockRank(s, nr, b, i, k);
    case Other => AppendRank(s, s, nr, k);
  }

  // ---------------------------------------------------------------- whole runs

  /** Every event of `es` is enabled when its turn comes. */
  ghost predicate Runs(s: Sched, nr: nat, es: seq<Event>)
    decreases |es|
  {
    Typed(s, nr) && (es == [] || (Enabled(s, nr, es[0]) && Runs(Next(s, nr, es[0]), nr, es[1..])))
  }

  ghost function After(s: Sched, nr: nat, es: seq<Event>): (r: Sched)
    requires Runs(s, nr, es)
    ensures Typed(r, nr)
    decreases |es|
  {
    if es == [] then s else After(Next(s, nr, es[0]), nr, es[1..])
  }

  /** `p` holds the processor right after some step of the run. */
  ghost predicate Dispatched(s: Sched, nr: nat, es: seq<Event>, p: nat)
    requires Runs(s, nr, es)
    decreases |es|
  {
    es != [] && (Next(s, nr, es[0]).cur == p || Dispatched(Next(s, nr, es[0]), nr, es[1..], p))
  }

  function Ticks(es: seq<Event>): nat
  {
    if es == [] then 0 else (if es[0].Tick? then 1 else 0) + Ticks(es[1..])
  }

  ghost function Beats(s: Sched, nr: nat, es: seq<Event>): (n: nat)
    requires Runs(s, nr, es)
    ensures Ticks(es) <= n
    decreases |es|
  {
    if es == [] then 0 else (if Beat(s, es[0]) then 1 else 0) + Beats(Next(s, nr, es[0]), nr, es[1..])
  }

  /** A run one step longer at the front. */
  lemma RunsCons(s: Sched, nr: nat, e: Event, es: seq<Event>, p: nat)
    requires Typed(s, nr) && Enabled(s, nr, e) && Runs(Next(s, nr, e), nr, es)
    ensures Runs(s, nr, [e] + es)
    ensures After(s, nr, [e] + es) == After(Next(s, nr, e), nr, es)
    ensures Dispatched(s, nr, [e] + es, p) <==> Next(s, nr, e).cur == p || Dispatched(Next(s, nr, e), nr, es, p)
    ensures Ticks([e] + es) == (if e.Tick? then 1 else 0) + Ticks(es)
    ensures Beats(s, nr, [e] + es) == (if Beat(s, e) then 1 else 0) + Beats(Next(s, nr, e), nr, es)
  {
    assert ([e] + es)[1..] == es;
  }

  /** What is left of a run after its first step. */
  lemma RunsTail(s: Sched, nr: nat, es: seq<Event>, p: nat)
    requires Runs(s, nr, es) && es != []
    ensures Typed(s, nr) && Enabled(s, nr, es[0]) && Runs(Next(s, nr, es[0]), nr, es[1..])
    ensures Dispatched(s, nr, es, p) <==> Next(s, nr, es[0]).cur == p || Dispatched(Next(s, nr, es[0]), nr, es[1..], p)
  {
  }

  lemma StillWaitingTrans(s: Sched, k: nat, s1: Sched, k1: nat, s2: Sched, k2: nat)
    requires StillWaiting(s, k, s1, k1) && StillWaiting(s1, k1, s2, k2)
    ensures StillWaiting(s, k, s2, k2)
  {
    assert s1.q[READY][k1 - k2..k1 + 1] == s1.q[READY][..k1 + 1][k1 - k2..];
    assert s.q[READY][k - k1..k + 1][k1 - k2..] == s.q[READY][k - k2..k + 1];
  }

  /** As long as the task is not dispatched it stays in the ready list, only tasks that were ahead of it are ahead of
      it, in the same order, and the beats that went by are covered by the drop of its rank. */
  lemma {:induction false} WaitsInOrder(s: Sched, nr: nat, es: seq<Event>, k: nat) returns (k': nat)
    requires Partition(s, nr) && QuantumOk(s, nr) && Runs(s, nr, es) && k < |s.q[READY]|
    requires !Dispatched(s, nr, es, s.q[READY][k])
    ensures Typed(After(s, nr, es), nr) && StillWaiting(s, k, After(s, nr, es), k')
    ensures Rank(After(s, nr, es), nr, k') + Beats(s, nr, es) <= Rank(s, nr, k)
    decreases |es|
  {
    if es == [] {
      k' := k;
      AppendRank(s, s, nr, k);
    } else {
      var s1 := Next(s, nr, es[0]);
      var k1 := StepRank(s, nr, es[0], k);
      NextKeepsPartition(s, nr, es[0]);
      NextKeepsQuantum(s, nr, es[0]);
      assert s1.q[READY][k1] == s1.q[READY][..k1 + 1][k1] == s.q[READY][k];
      k' := WaitsInOrder(s1, nr, es[1..], k1);
      StillWaitingTrans(s, k, s1, k1, After(s, nr, es), k');
    }
  }

  /** Bounded waiting: in every run with at least as many beats as its rank, whatever forks, exits, blocks and unblocks
      are interleaved, the task gets the processor. */
  lemma GetsTheProcessor(s: Sched, nr: nat, es: seq<Event>, k: nat)
    requires Partition(s, nr) && QuantumOk(s, nr) && Runs(s, nr, es) && k < |s.q[READY]|
    requires Beats(s, nr, es) >= Rank(s, nr, k)
    ensures Dispatched(s, nr, es, s.q[READY][k])
  {
    if !Dispatched(s, nr, es, s.q[READY][k]) {
      var k' := WaitsInOrder(s, nr, es, k);
    }
  }

  /** The rank is at most one turn of the longest quantum per task ahead, plus the turn in progress. */
  lemma RankBound(s: Sched, nr: nat, k: nat, bound: nat)
    requires Typed(s, nr) && k < |s.q[READY]| && 1 <= bound && s.cq <= bound
    requires forall t :: 0 <= t < nr ==> s.quantum[t] <= bound
    ensures Rank(s, nr, k) <= bound * (k + 1)
  {
    TurnsBound(s.quantum, s.q[READY][..k], bound);
    assert bound * (k + 1) == bound * k + bound;
  }

  ghost predicate OnlyTicks(es: seq<Event>)
  {
    forall i :: 0 <= i < |es| ==> es[i].Tick? || es[i].Other?
  }

  lemma OnlyTicksCons(e: Event, es: seq<Event>)
    requires (e.Tick? || e.Other?) && OnlyTicks(es)
    ensures OnlyTicks([e] + es)
  {
  }

  lemma {:induction false} NoTicksNoChange(s: Sched, nr: nat, es: seq<Event>)
    requires Runs(s, nr, es) && OnlyTicks(es) && Ticks(es) == 0
    ensures After(s, nr, es) == s
    decreases |es|
  {
    if es != [] {
      assert OnlyTicks(es[1..]);
      NoTicksNoChange(s, nr, es[1..]);
    }
  }

  /** When the clock is the only source of scheduling the rank is exact: the task is dispatched at that tick and no
      sooner. */
  lemma {:induction false} TicksOnlyIsExact(s: Sched, nr: nat, es: seq<Event>, k: nat)
    requires Partition(s, nr) && QuantumOk(s, nr) && Runs(s, nr, es) && k < |s.q[READY]|
    requires OnlyTicks(es) && Ticks(es) <= Rank(s, nr, k)
    ensures Dispatched(s, nr, es, s.q[READY][k]) <==> Ticks(es) == Rank(s, nr, k)
    ensures Ticks(es) == Rank(s, nr, k) ==> After(s, nr, es).cur == s.q[READY][k]
    decreases |es|
  {
    if es != [] {
      var s1, rest := Next(s, nr, es[0]), es[1..];
      assert OnlyTicks(rest);
      if es[0].Other? {
        assert s.q[READY][k] in s.q[READY];
        TicksOnlyIsExact(s, nr, rest, k);
      } else {
        var k1 := TickRank(s, nr, es[0], k);
        NextKeepsPartition(s, nr, es[0]);
        NextKeepsQuantum(s, nr, es[0]);
        if Rank(s, nr, k) > 1 {
          assert s1.q[READY][k1] == s1.q[READY][..k1 + 1][k1] == s.q[READY][k];
          TicksOnlyIsExact(s1, nr, rest, k1);
        } else {
          NoTicksNoChange(s1, nr, rest);
        }
      }
    }
  }

  /** A step drops at most the head of the ready list, and then the head is what runs. */
  lemma StepShift(s: Sched, nr: nat, e: Event) returns (d: nat)
    requires Partition(s, nr) && Enabled(s, nr, e) && s.q[READY] != []
    ensures var s' := Next(s, nr, e);
      && d <= 1 && |s'.q| >= 2 && s.q[READY][d..] <= s'.q[READY]
      && s'.cur == if d == 1 then s.q[READY][0] else s.cur
  {
    var s' := Next(s, nr, e);
    d := if s'.cur == s.cur then 0 else 1;
    assert s.q[READY][0] in s.q[READY];
  }

  /** If the step does not dispatch `j`, both `j` and the later `k` move up by the same amount. */
  lemma StepTogether(s: Sched, nr: nat, e: Event, j: nat, k: nat) returns (d: nat)
    requires Partition(s, nr) && Enabled(s, nr, e) && j < k < |s.q[READY]|
    requires Next(s, nr, e).cur != s.q[READY][j]
    ensures var s', ready := Next(s, nr, e), s.q[READY];
      && Partition(s', nr) && d <= j && k - d < |s'.q[READY]|
      && s'.q[READY][j - d] == ready[j] && s'.q[READY][k - d] == ready[k] && s'.cur != ready[k]
  {
    NextKeepsPartition(s, nr, e);
    d := StepShift(s, nr, e);
    var ready := s.q[READY];
    assert ready[k] in ready;
    assert ready[d..][j - d] == ready[j] && ready[d..][k - d] == ready[k];
  }

  /** The first step of a run that does not dispatch `j`: the rest of the run has not dispatched it either, and
      dispatches `k` if the whole does. */
  lemma FirstStepTogether(s: Sched, nr: nat, es: seq<Event>, j: nat, k: nat)
      returns (s1: Sched, rest: seq<Event>, d: nat)
    requires Partition(s, nr) && Runs(s, nr, es) && es != [] && j < k < |s.q[READY]|
    requires !Dispatched(s, nr, es, s.q[READY][j])
    ensures Partition(s1, nr) && Runs(s1, nr, rest) && |rest| < |es| && d <= j && k - d < |s1.q[READY]|
    ensures !Dispatched(s1, nr, rest, s1.q[READY][j - d])
    ensures Dispatched(s, nr, es, s.q[READY][k]) ==> Dispatched(s1, nr, rest, s1.q[READY][k - d])
  {
    RunsTail(s, nr, es, s.q[READY][j]);
    RunsTail(s, nr, es, s.q[READY][k]);
    s1, rest := Next(s, nr, es[0]), es[1..];
    d := StepTogether(s, nr, es[0], j, k);
  }

  /** No overtaking: in every run, a task is not dispatched before one that was ahead of it in the ready list. */
  lemma {:induction false} NoOvertaking(s: Sched, nr: nat, es: seq<Event>, j: nat, k: nat)
    requires Partition(s, nr) && Runs(s, nr, es) && j < k < |s.q[READY]|
    requires !Dispatched(s, nr, es, s.q[READY][j])
    ensures !Dispatched(s, nr, es, s.q[READY][k])
    decreases |es|
  {
    if es != [] {
      var s1, rest, d := FirstStepTogether(s, nr, es, j, k);
      NoOvertaking(s1, nr, rest, j - d, k - d);
    }
  }

  /** A bound on CPU_QUANTUM survives every step but one: the tick that wraps it. */
  lemma QuantumBoundKept(s: Sched, nr: nat, e: Event, bound: nat)
    requires Partition(s, nr) && QuantumOk(s, nr) && Enabled(s, nr, e)
    requires s.cq <= bound < INT_MAX && forall t :: 0 <= t < nr ==> s.quantum[t] <= bound
    ensures Next(s, nr, e).cq <= bound <==> !(e.Tick? && s.cq == INT_MIN)
  {
    assert s.q[READY] != [] ==> s.quantum[s.q[READY][0]] <= bound;
    if e.Unblock? { assert s.q[e.queue][e.index] < nr; }
  }
}
