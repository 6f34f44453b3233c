/** The kernel's task lists as values: an indexed family of disjoint, duplicate-free sequences of task numbers. */
module TaskQueues {

  type Queues = seq<seq<nat>>

  /** Indices of the two fixed lists; every other index is a blocking queue. */
  const FREE: nat := 0
  const READY: nat := 1

  ghost predicate NoDup(s: seq<nat>)
  {
    forall i, j :: 0 <= i < j < |s| ==> s[i] != s[j]
  }

  /** Every element is a PCB number. */
  predicate Below(s: seq<nat>, nr: nat)
  {
    forall i :: 0 <= i < |s| ==> s[i] < nr
  }

  ghost predicate Disjoint(q: Queues)
  {
    && (forall a :: 0 <= a < |q| ==> NoDup(q[a]))
    && (forall a, b, t :: 0 <= a < |q| && 0 <= b < |q| && t in q[a] && t in q[b] ==> a == b)
  }

  ghost predicate In(q: Queues, t: nat)
  {
    exists a :: 0 <= a < |q| && t in q[a]
  }

  function Append(q: Queues, a: nat, t: nat): Queues
    requires a < |q|
  {
    q[a := q[a] + [t]]
  }

  function Prepend(q: Queues, a: nat, t: nat): Queues
    requires a < |q|
  {
    q[a := [t] + q[a]]
  }

  function RemoveAt(q: Queues, a: nat, i: nat): Queues
    requires a < |q| && i < |q[a]|
  {
    q[a := q[a][..i] + q[a][i + 1..]]
  }

  lemma AppendKeeps(q: Queues, a: nat, t: nat)
    requires Disjoint(q) && a < |q| && !In(q, t)
    ensures Disjoint(Append(q, a, t))
    ensures forall b, u :: 0 <= b < |q| ==> (u in Append(q, a, t)[b] <==> u in q[b] || (b == a && u == t))
  {
  }

  lemma RemoveKeeps(q: Queues, a: nat, i: nat)
    requires Disjoint(q) && a < |q| && i < |q[a]|
    ensures Disjoint(RemoveAt(q, a, i))
    ensures forall b, u :: 0 <= b < |q| ==> (u in RemoveAt(q, a, i)[b] <==> u in q[b] && u != q[a][i])
    ensures !In(RemoveAt(q, a, i), q[a][i])
  {
    var s, r := q[a], RemoveAt(q, a, i);
    assert s == s[..i] + [s[i]] + s[i + 1..];
    forall u ensures u in r[a] <==> u in s && u != s[i] {
      if u in s && u != s[i] {
        var k :| 0 <= k < |s| && s[k] == u;
        assert r[a][if k < i then k else k - 1] == u;
      }
    }
  }

  lemma RemovePrependIsIdentity(q: Queues, a: nat)
    requires a < |q| && q[a] != []
    ensures Prepend(RemoveAt(q, a, 0), a, q[a][0]) == q
  {
    assert [q[a][0]] + (q[a][..0] + q[a][1..]) == q[a];
  }
}
