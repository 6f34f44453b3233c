/** Per-task time accounting: every act_ticks_* routine reads the clock twice and charges one interval to one bucket. */
module Ticks {
  import opened Params

  type word = x: nat | x < WORD

  /** struct stats */
  datatype Stats = Stats(user: word, system: word, blocked: word, ready: word, elapsed: word, trans: word,
      remaining: word)

  /** History totals of one life of a PCB, kept as plain integers. */
  datatype Ledger = Ledger(birth: int, inherited: int, discarded: int, gaps: int)

  datatype Account = Account(st: Stats, led: Ledger)

  /** The two get_ticks() results of one routine: the first ends an interval, the second starts the next one. */
  datatype Reads = Reads(first: word, second: word)

  function Add(x: word, y: int): word { (x + y) % WORD }

  const NEW_ACCOUNT: Account := Account(Stats(0, 0, 0, 0, 0, 0, 0), Ledger(0, 0, 0, 0))

  /** Conservation with its exact deficit: the four buckets hold the time since birth plus the inherited ready time,
      less the system time that blocking discards and less the gaps between paired clock reads, all modulo 2^32. */
  ghost predicate Balanced(a: Account)
  {
    var s, l := a.st, a.led;
    (s.user + s.system + s.ready + s.blocked - (s.elapsed - l.birth) - l.inherited + l.discarded + l.gaps) % WORD == 0
  }

  /** Closes the running interval and starts the next. */
  function Restart(a: Account, r: Reads): Account
  {
    Account(a.st.(elapsed := r.second), a.led.(gaps := a.led.gaps + r.second - r.first))
  }

  /** act_ticks_user2kernel */
  function UserToKernel(a: Account, r: Reads): (a': Account)
    ensures Balanced(a) ==> Balanced(a')
  {
    Restart(a.(st := a.st.(user := Add(a.st.user, r.first - a.st.elapsed))), r)
  }

  /** act_ticks_kernel2user; act_ticks_kernel2ready and act_stats_surt_idle charge the same bucket. */
  function KernelToUser(a: Account, r: Reads): (a': Account)
    ensures Balanced(a) ==> Balanced(a')
  {
    Restart(a.(st := a.st.(system := Add(a.st.system, r.first - a.st.elapsed))), r)
  }

  /** act_ticks_ready2kernel */
  function ReadyToKernel(a: Account, r: Reads): (a': Account)
    ensures Balanced(a) ==> Balanced(a')
  {
    Restart(a.(st := a.st.(ready := Add(a.st.ready, r.first - a.st.elapsed), trans := Add(a.st.trans, 1))), r)
  }

  /** block_process: the assignment throws away the system time accumulated so far. */
  function EnterBlocked(a: Account, r: Reads): (a': Account)
    ensures Balanced(a) ==> Balanced(a')
    ensures Is(a'.st.system, r.first - a.st.elapsed) && a'.led.discarded == a.led.discarded + a.st.system
  {
    Restart(Account(a.st.(system := Add(0, r.first - a.st.elapsed)),
        a.led.(discarded := a.led.discarded + a.st.system)), r)
  }

  /** unblock_process */
  function LeaveBlocked(a: Account, r: Reads): (a': Account)
    ensures Balanced(a) ==> Balanced(a')
  {
    Restart(a.(st := a.st.(blocked := Add(a.st.blocked, r.first - a.st.elapsed))), r)
  }

  /** set_ini_stats: the ready time of the copied PCB is not reset. */
  function Birth(copied: Stats, now: word, quantum: int): (a: Account)
    ensures Balanced(a) && Is(a.st.remaining, quantum)
    ensures a.st.user == a.st.system == a.st.blocked == a.st.trans == 0 && a.st.ready == copied.ready
      && a.st.elapsed == now
  {
    Account(Stats(0, 0, 0, copied.ready, now, 0, Add(0, quantum)), Ledger(now, copied.ready, 0, 0))
  }

  // ---------------------------------------------------------------- where the time goes

  datatype Kind = User | System | Ready | Blocking | Blocked
  datatype Entry = Entry(kind: Kind, at: Reads)

  function Apply(a: Account, e: Entry): Account
  {
    match e.kind
    case User => UserToKernel(a, e.at)
    case System => KernelToUser(a, e.at)
    case Ready => ReadyToKernel(a, e.at)
    case Blocking => EnterBlocked(a, e.at)
    case Blocked => LeaveBlocked(a, e.at)
  }

  function Life(a: Account, es: seq<Entry>): Account
  {
    if es == [] then a else Apply(Life(a, es[..|es| - 1]), es[|es| - 1])
  }

  /** Length of the i-th interval: from the second read of the previous routine to the first read of this one. */
  function Interval(birth: int, es: seq<Entry>, i: nat): int
    requires i < |es|
  {
    es[i].at.first - (if i == 0 then birth else es[i - 1].at.second)
  }

  function Spent(birth: int, es: seq<Entry>, kinds: set<Kind>): int
  {
    if es == [] then 0
    else
      var n := |es| - 1;
      Spent(birth, es[..n], kinds) + if es[n].kind in kinds then Interval(birth, es, n) else 0
  }

  /** The buckets hold the given totals, modulo 2^32. */
  ghost predicate Holds(a: Account, user: int, ready: int, blocked: int, system: int)
  {
    && (a.st.user - user) % WORD == 0
    && (a.st.ready - a.led.inherited - ready) % WORD == 0
    && (a.st.blocked - blocked) % WORD == 0
    && (a.st.system + a.led.discarded - system) % WORD == 0
  }

  lemma ApplyHolds(a: Account, e: Entry, user: int, ready: int, blocked: int, system: int)
    requires Holds(a, user, ready, blocked, system)
    ensures var d := e.at.first - a.st.elapsed;
      Holds(Apply(a, e),
            user + (if e.kind == User then d else 0),
            ready + (if e.kind == Ready then d else 0),
            blocked + (if e.kind == Blocked then d else 0),
            system + (if e.kind in {System, Blocking} then d else 0))
  {
    var d := e.at.first - a.st.elapsed;
    match e.kind
    case User => AddCongruent(a.st.user, d, user);
    case Ready => AddCongruent(a.st.ready, d, a.led.inherited + ready);
    case Blocked => AddCongruent(a.st.blocked, d, blocked);
    case System => AddCongruent(a.st.system, d, system - a.led.discarded);
    case Blocking => AddCongruent(0, d, 0);
  }

  lemma AddCongruent(x: word, d: int, total: int)
    requires (x - total) % WORD == 0
    ensures (Add(x, d) - total - d) % WORD == 0
  {
  }

  /** Every bucket holds exactly the intervals that ended in its own transition. */
  lemma {:induction false} BucketsSplitTheLife(copied: Stats, now: word, quantum: int, es: seq<Entry>)
    ensures var a := Life(Birth(copied, now, quantum), es);
      && Holds(a, Spent(now, es, {User}), Spent(now, es, {Ready}), Spent(now, es, {Blocked}),
          Spent(now, es, {System, Blocking}))
      && a.st.elapsed == (if es == [] then now else es[|es| - 1].at.second)
      && a.led.inherited == copied.ready && a.led.birth == now
  {
    if es != [] {
      var n := |es| - 1;
      var ini := es[..n];
      BucketsSplitTheLife(copied, now, quantum, ini);
      ApplyHolds(Life(Birth(copied, now, quantum), ini), es[n],
                 Spent(now, ini, {User}), Spent(now, ini, {Ready}), Spent(now, ini, {Blocked}),
                     Spent(now, ini, {System, Blocking}));
    }
  }

  // ---------------------------------------------------------------- one routine, one bucket

  /** The word x is the number n, modulo 2^32. */
  predicate Is(x: word, n: int)
  {
    (x - n) % WORD == 0
  }

  /** What a routine does to the statistics: the interval it ends goes to its own bucket and to no other -- blocking
      starts the system bucket afresh with it -- only a dispatch counts a switch, and the next interval starts at the
      second reading. */
  lemma OneBucket(a: Account, e: Entry)
    ensures var s, s', d := a.st, Apply(a, e).st, e.at.first - a.st.elapsed;
      && Is(s'.user, s.user + if e.kind == User then d else 0)
      && Is(s'.ready, s.ready + if e.kind == Ready then d else 0)
      && Is(s'.blocked, s.blocked + if e.kind == Blocked then d else 0)
      && Is(s'.system, if e.kind == Blocking then d else if e.kind == System then s.system + d else s.system as int)
      && Is(s'.trans, s.trans + if e.kind == Ready then 1 else 0)
      && s'.elapsed == e.at.second && s'.remaining == s.remaining
  {
    var d := e.at.first - a.st.elapsed;
    AddIs(a.st.user, d);
    AddIs(a.st.ready, d);
    AddIs(a.st.blocked, d);
    AddIs(a.st.system, d);
    AddIs(0, d);
    AddIs(a.st.trans, 1);
  }

  lemma AddIs(x: word, d: int)
    ensures Is(Add(x, d), x + d) && Is(x, x as int)
  {
  }

  /** ... and to the history: blocking discards the system time there was, every routine loses the gap between its two
      readings. */
  lemma OneHistory(a: Account, e: Entry)
    ensures var l, l' := a.led, Apply(a, e).led;
      && l'.birth == l.birth && l'.inherited == l.inherited
      && l'.discarded == l.discarded + (if e.kind == Blocking then a.st.system else 0)
      && l'.gaps == l.gaps + e.at.second - e.at.first
  {
  }
}
