/** The bounded fork server: admission by a counter that the main loop and the SIGCHLD handler both change. */
module Server {

  /** Where the main loop is: at the test, in the waitpid loop, before accept/fork, between fork and the increment, and
      in the middle of the increment, which is a load and a store. */
  datatype Pc = Check | Waiting | Accepting | Forked | Loaded(tmp: int) | Stopped

  /** `num` and `max` are the program's variables; `live` and `zombies` its running and unreaped children; `pending` the
      one SIGCHLD the system keeps for it. `coalesced` counts deaths that found the signal already pending, `lost` the
      decrements that a store of the interrupted increment overwrote. */
  datatype State = State(pc: Pc, num: int, max: int, live: nat, zombies: nat, pending: bool, coalesced: nat, lost: nat)

  datatype Event = Main | Reap | AcceptFails | ForkFails | Die | Deliver

  predicate Enabled(s: State, e: Event)
  {
    match e
    case Main =>
      (match s.pc
       case Check => true
       case Waiting => s.live == 0 && s.zombies == 0  // waitpid returns -1 only when there is no child left
       case Accepting => true
       case Forked => true
       case Loaded(_) => true
       case Stopped => false)
    case Reap => s.pc == Waiting && s.zombies > 0
    case AcceptFails => s.pc == Accepting
    case ForkFails => s.pc == Accepting
    case Die => s.live > 0
    case Deliver => s.pending && s.pc != Stopped
  }

  function Next(s: State, e: Event): State
    requires Enabled(s, e)
  {
    match e
    case Main =>
      (match s.pc
       case Check => s.(pc := if s.num >= s.max then Waiting else Accepting)
       case Waiting => s.(pc := Accepting)
       case Accepting => s.(pc := Forked, live := s.live + 1)
       case Forked => s.(pc := Loaded(s.num))
       case Loaded(tmp) =>
         s.(pc := Check, num := tmp + 1, lost := if tmp >= s.num then s.lost + (tmp - s.num) else s.lost)
       case Stopped => s)
    case Reap => s.(zombies := s.zombies - 1)
    case AcceptFails => s.(pc := Stopped)
    case ForkFails => s.(pc := Stopped)
    case Die =>
      s.(live := s.live - 1, zombies := s.zombies + 1, pending := true,
         coalesced := if s.pending then s.coalesced + 1 else s.coalesced)
    case Deliver => s.(pending := false, num := s.num - 1)
  }

  function Start(max: int): State
  {
    State(Check, 0, max, 0, 0, false, 0, 0)
  }

  /** One fork that the counter does not know yet. */
  function Uncounted(s: State): int
  {
    if s.pc.Forked? || s.pc.Loaded? then 1 else 0
  }

  function Limit(max: int): int
  {
    if max < 1 then 1 else max
  }

  /** Decrements that will never happen. */
  function Drift(s: State): int
  {
    s.coalesced + s.lost
  }

  /** Decrements that happened during the interrupted increment and that its store will overwrite. */
  function Doomed(s: State): int
  {
    if s.pc.Loaded? then s.pc.tmp - s.num else 0
  }

  /** The exact meaning of the counter, and why a new child may be admitted: the room left is what the drift has not
      eaten. */
  predicate Inv(s: State)
  {
    var signal := if s.pending then 1 else 0;
    && s.num == s.live - Uncounted(s) + signal + Drift(s)
    && Doomed(s) >= 0
    && (s.live <= 1 || s.live + signal + Drift(s) + Doomed(s) <= s.max)
    && (s.pc == Accepting ==> s.live == 0 || s.live + signal + Drift(s) < s.max)
  }

  ghost predicate Runs(s: State, es: seq<Event>)
    decreases |es|
  {
    es == [] || (Enabled(s, es[0]) && Runs(Next(s, es[0]), es[1..]))
  }

  ghost function After(s: State, es: seq<Event>): State
    requires Runs(s, es)
    decreases |es|
  {
    if es == [] then s else After(Next(s, es[0]), es[1..])
  }

  lemma NextKeeps(s: State, e: Event)
    requires Inv(s) && Enabled(s, e)
    ensures Inv(Next(s, e)) && Next(s, e).max == s.max && Drift(Next(s, e)) >= Drift(s)
  {
  }

  /** Every interleaving: the counter is the live children, less one between fork and increment, plus the undelivered
      signal, plus every coalesced death and every lost decrement; and what is lost stays lost. */
  lemma {:induction false} CounterIsExact(s: State, es: seq<Event>)
    requires Inv(s) && Runs(s, es)
    ensures Inv(After(s, es)) && After(s, es).max == s.max && Drift(After(s, es)) >= Drift(s)
    decreases |es|
  {
    if es != [] {
      NextKeeps(s, es[0]);
      CounterIsExact(Next(s, es[0]), es[1..]);
    }
  }

  /** Admission: in every interleaving from the start there are never more live children than max(1, MAX_CLIENTS), and
      the counter never falls below the children it knows. */
  lemma NeverTooMany(max: int, es: seq<Event>)
    requires Runs(Start(max), es)
    ensures var s := After(Start(max), es); s.live <= Limit(max) && s.num >= s.live - Uncounted(s)
  {
    CounterIsExact(Start(max), es);
  }

  /** The price: each coalesced death or lost decrement takes a slot away for good. From any state on, no more than
      max(1, MAX_CLIENTS - drift) children are ever live again. */
  lemma SlotsAreLostForEver(s: State, es: seq<Event>)
    requires Inv(s) && Runs(s, es)
    ensures s.live <= Limit(s.max - Drift(s))
    ensures After(s, es).live <= Limit(s.max - Drift(s))
  {
    CounterIsExact(s, es);
  }

  // ---------------------------------------------------------------- children

  /** How many children the main loop forks in the run, and how many it reaps. */
  ghost function Forks(s: State, es: seq<Event>): nat
    requires Runs(s, es)
    decreases |es|
  {
    if es == [] then 0 else (if es[0] == Main && s.pc == Accepting then 1 else 0) + Forks(Next(s, es[0]), es[1..])
  }

  function Reaps(es: seq<Event>): nat
  {
    if es == [] then 0 else (if es[0] == Reap then 1 else 0) + Reaps(es[1..])
  }

  /** Every child is accounted for: running, waiting to be reaped, or reaped. */
  lemma {:induction false} ChildrenAddUp(s: State, es: seq<Event>)
    requires Runs(s, es)
    ensures s.live + s.zombies + Forks(s, es) == After(s, es).live + After(s, es).zombies + Reaps(es)
    decreases |es|
  {
    if es != [] { ChildrenAddUp(Next(s, es[0]), es[1..]); }
  }

  /** The waitpid loop ends when there is no child left, running or not; it starts when the counter has reached the
      limit. */
  lemma WaitsForAll(s: State)
    ensures s.pc == Waiting && Enabled(s, Main) ==> s.live == 0 && s.zombies == 0 && Next(s, Main).pc == Accepting
    ensures s.pc == Check ==> (Next(s, Main).pc == Waiting <==> s.num >= s.max)
  {
  }

  /** A failing accept or fork ends the server: whatever happens to the children, it does nothing any more. */
  lemma {:induction false} FailureIsFinal(s: State, e: Event, es: seq<Event>)
    requires Enabled(s, e) && (e == AcceptFails || e == ForkFails) && Runs(Next(s, e), es)
    ensures var r := After(Next(s, e), es); r.pc == Stopped && r.num == s.num && Forks(Next(s, e), es) == Reaps(es) == 0
  {
    StoppedStays(Next(s, e), es);
  }

  lemma {:induction false} StoppedStays(s: State, es: seq<Event>)
    requires s.pc == Stopped && Runs(s, es)
    ensures After(s, es).pc == Stopped && After(s, es).num == s.num && Forks(s, es) == Reaps(es) == 0
    decreases |es|
  {
    if es != [] { StoppedStays(Next(s, es[0]), es[1..]); }
  }

  // ---------------------------------------------------------------- all slots but one can be lost

  lemma {:induction false} RunsConcat(s: State, a: seq<Event>, b: seq<Event>)
    requires Runs(s, a) && Runs(After(s, a), b)
    ensures Runs(s, a + b) && After(s, a + b) == After(After(s, a), b)
    decreases |a|
  {
    if a == [] {
      assert a + b == b;
    } else {
      assert (a + b)[0] == a[0] && (a + b)[1..] == a[1..] + b;
      RunsConcat(Next(s, a[0]), a[1..], b);
    }
  }

  lemma OneEvent(s: State, e: Event)
    requires Enabled(s, e)
    ensures Runs(s, [e]) && After(s, [e]) == Next(s, e)
  {
    assert [e][1..] == [];
  }

  /** The server after n connections, all of them still served. */
  function Busy(max: int, n: nat): State
  {
    State(Check, n, max, n, 0, false, 0, 0)
  }

  /** ... and after m of those children died while the signal was blocked. */
  function Bereft(max: int, n: nat, m: nat): State
    requires 1 <= m <= n
  {
    State(Check, n, max, n - m, m, true, m - 1, 0)
  }

  lemma Admit(max: int, n: nat) returns (es: seq<Event>)
    requires n < max
    ensures Runs(Busy(max, n), es) && After(Busy(max, n), es) == Busy(max, n + 1)
  {
    var s0 := Busy(max, n);
    var s1 := Next(s0, Main);
    var s2 := Next(s1, Main);
    var s3 := Next(s2, Main);
    OneEvent(s0, Main);
    OneEvent(s1, Main);
    OneEvent(s2, Main);
    OneEvent(s3, Main);
    RunsConcat(s0, [Main], [Main]);
    RunsConcat(s2, [Main], [Main]);
    RunsConcat(s0, [Main] + [Main], [Main] + [Main]);
    es := [Main] + [Main] + ([Main] + [Main]);
  }

  lemma {:induction false} Fill(max: int, n: nat) returns (es: seq<Event>)
    requires n <= max
    ensures Runs(Start(max), es) && After(Start(max), es) == Busy(max, n)
  {
    es := [];
    if n > 0 {
      var first := Fill(max, n - 1);
      var last := Admit(max, n - 1);
      RunsConcat(Start(max), first, last);
      es := first + last;
    }
  }

  lemma {:induction false} Bury(max: int, n: nat, m: nat) returns (es: seq<Event>)
    requires 1 <= m <= n
    ensures Runs(Busy(max, n), es) && After(Busy(max, n), es) == Bereft(max, n, m)
  {
    es := [Die];
    if m == 1 {
      OneEvent(Busy(max, n), Die);
    } else {
      var before := Bury(max, n, m - 1);
      OneEvent(Bereft(max, n, m - 1), Die);
      RunsConcat(Busy(max, n), before, [Die]);
      es := before + [Die];
    }
  }

  /** The server with no child at all, no signal pending and all slots but one gone. */
  function Starved(max: int): State
    requires max >= 1
  {
    State(Check, max - 1, max, 0, max, false, max - 1, 0)
  }

  lemma Starve(max: int) returns (es: seq<Event>)
    requires max >= 1
    ensures Runs(Busy(max, max), es) && After(Busy(max, max), es) == Starved(max)
  {
    var bury := Bury(max, max, max);
    OneEvent(Bereft(max, max, max), Deliver);
    RunsConcat(Busy(max, max), bury, [Deliver]);
    es := bury + [Deliver];
  }

  /** In that state there is never more than one child again. */
  lemma StarvedForEver(max: int, later: seq<Event>)
    requires max >= 1 && Runs(Starved(max), later)
    ensures After(Starved(max), later).live <= 1
  {
    SlotsAreLostForEver(Starved(max), later);
  }

  /** And it happens: for every limit a run leads there. */
  lemma AllSlotsButOneCanBeLost(max: int) returns (es: seq<Event>)
    requires max >= 1
    ensures Runs(Start(max), es) && After(Start(max), es) == Starved(max)
  {
    var fill := Fill(max, max);
    var starve := Starve(max);
    RunsConcat(Start(max), fill, starve);
    es := fill + starve;
  }
}
