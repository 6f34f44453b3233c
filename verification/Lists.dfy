/** The intrusive circular doubly linked list of list.c, on the heap: any number of lists over one pool of nodes. */
module Lists {
  import opened TaskQueues

  /** struct list_head. `id` stands for the address arithmetic of list_entry: it tells which PCB a node is embedded
      in. */
  class ListHead {
    const id: nat
    var next: ListHead?
    var prev: ListHead?

    constructor (id: nat)
      ensures this.id == id && next == null && prev == null
    {
      this.id := id;
      next, prev := null, null;
    }
  }

  /** INIT_LIST_HEAD */
  method InitListHead(list: ListHead)
    modifies list
    ensures list.next == list == list.prev
  {
    list.next := list;
    list.prev := list;
  }

  /** __list_add; `before` and `after` may be the same node. */
  method LinkBetween(node: ListHead, before: ListHead, after: ListHead)
    requires node != before && node != after
    modifies node, before, after
    ensures after.prev == node && node.next == after && node.prev == before && before.next == node
    ensures before != after ==> before.prev == old(before.prev) && after.next == old(after.next)
  {
    after.prev := node;
    node.next := after;
    node.prev := before;
    before.next := node;
  }

  /** __list_del */
  method Bypass(before: ListHead, after: ListHead)
    modifies before, after
    ensures after.prev == before && before.next == after
    ensures before != after ==> before.prev == old(before.prev) && after.next == old(after.next)
  {
    after.prev := before;
    before.next := after;
  }

  /** One operation on the pool. */
  datatype Op = Add(list: nat, task: nat) | AddTail(list: nat, task: nat) | Del(list: nat, index: nat)

  ghost predicate Enabled(q: Queues, tasks: nat, op: Op)
  {
    match op
    case Add(a, t) => a < |q| && t < tasks && !In(q, t)
    case AddTail(a, t) => a < |q| && t < tasks && !In(q, t)
    case Del(a, i) => a < |q| && i < |q[a]|
  }

  function Apply(q: Queues, op: Op): Queues
    requires op.list < |q| && (op.Del? ==> op.index < |q[op.list]|)
  {
    match op
    case Add(a, t) => Prepend(q, a, t)
    case AddTail(a, t) => Append(q, a, t)
    case Del(a, i) => RemoveAt(q, a, i)
  }

  ghost predicate AllEnabled(q: Queues, tasks: nat, ops: seq<Op>)
    decreases |ops|
  {
    ops == [] || (Enabled(q, tasks, ops[0]) && AllEnabled(Apply(q, ops[0]), tasks, ops[1..]))
  }

  ghost function ApplyAll(q: Queues, tasks: nat, ops: seq<Op>): Queues
    requires AllEnabled(q, tasks, ops)
    decreases |ops|
  {
    if ops == [] then q else ApplyAll(Apply(q, ops[0]), tasks, ops[1..])
  }

  // ---------------------------------------------------------------- links as values

  const NULL: int := -1

  /** The links of a pool of `size` nodes, of which the first `heads` are list heads and node heads + t is embedded in
      PCB t: for every node the number of its next and of its previous node, or NULL. */
  datatype Links = Links(size: nat, heads: nat, next: seq<int>, prev: seq<int>)

  ghost predicate Typed(l: Links, q: Queues)
  {
    && l.heads == |q| && l.heads <= l.size == |l.next| == |l.prev|
    && Disjoint(q) && forall a :: 0 <= a < |q| ==> Below(q[a], l.size - l.heads)
  }

  /** The node at position i of list a: the head at 0, the elements, and the head again after the last one. */
  ghost function At(l: Links, q: Queues, a: nat, i: nat): nat
    requires a < |q| && i <= |q[a]| + 1
  {
    if i == 0 || i == |q[a]| + 1 then a else l.heads + q[a][i - 1]
  }

  /** Positions i and i + 1 of list a are linked both ways. */
  ghost predicate Linked(l: Links, q: Queues, a: nat, i: nat)
    requires a < |q| && i <= |q[a]|
  {
    var x, y := At(l, q, a, i), At(l, q, a, i + 1);
    x < |l.next| && y < |l.prev| && l.next[x] == y && l.prev[y] == x
  }

  /** Along every list, next and prev are mutually inverse and cyclic through the head. */
  ghost predicate Rings(l: Links, q: Queues)
  {
    && Typed(l, q)
    && forall a, i :: 0 <= a < |q| && 0 <= i <= |q[a]| ==> Linked(l, q, a, i)
  }

  lemma PositionsApart(l: Links, q: Queues, a: nat, i: nat, b: nat, j: nat)
    requires Typed(l, q) && a < |q| && b < |q| && i <= |q[a]| && j <= |q[b]|
    ensures At(l, q, a, i) == At(l, q, b, j) <==> a == b && i == j
    ensures At(l, q, a, i + 1) == At(l, q, b, j + 1) <==> a == b && i == j
  {
    if i > 0 { assert q[a][i - 1] in q[a]; }
    if j > 0 { assert q[b][j - 1] in q[b]; }
    if i < |q[a]| { assert q[a][i] in q[a]; }
    if j < |q[b]| { assert q[b][j] in q[b]; }
  }

  lemma NotLinkedIn(l: Links, q: Queues, a: nat, i: nat, t: nat)
    requires Typed(l, q) && a < |q| && i <= |q[a]| + 1 && !In(q, t)
    ensures At(l, q, a, i) != l.heads + t
  {
    if 0 < i <= |q[a]| { assert q[a][i - 1] in q[a]; }
  }

  ghost function Inserted(q: Queues, a: nat, k: nat, t: nat): Queues
    requires a < |q| && k <= |q[a]|
  {
    q[a := q[a][..k] + [t] + q[a][k..]]
  }

  lemma InsertKeepsDisjoint(q: Queues, a: nat, k: nat, t: nat)
    requires Disjoint(q) && a < |q| && k <= |q[a]| && !In(q, t)
    ensures Disjoint(Inserted(q, a, k, t))
  {
    var s, s' := q[a], Inserted(q, a, k, t)[a];
    assert s == s[..k] + s[k..];
    assert forall u :: u in s' <==> u in s || u == t;
    assert NoDup(s') by {
      assert forall i :: 0 <= i < |s| ==> s[i] in s;
    }
  }

  /** The four assignments of __list_add, on links. */
  ghost function LinkIn(l: Links, n: nat, before: nat, after: nat): Links
    requires n < |l.next| == |l.prev| && before < |l.next| && after < |l.prev|
  {
    l.(next := l.next[n := after][before := n], prev := l.prev[after := n][n := before])
  }

  /** Linking PCB t in between positions k and k + 1 of list a inserts it there and disturbs no other link. */
  lemma InsertKeepsRings(l: Links, q: Queues, a: nat, k: nat, t: nat)
    requires Rings(l, q) && a < |q| && k <= |q[a]| && t < l.size - l.heads && !In(q, t)
    ensures Rings(LinkIn(l, l.heads + t, At(l, q, a, k), At(l, q, a, k + 1)), Inserted(q, a, k, t))
  {
    InsertKeepsDisjoint(q, a, k, t);
    var l', q' := LinkIn(l, l.heads + t, At(l, q, a, k), At(l, q, a, k + 1)), Inserted(q, a, k, t);
    forall b, i | 0 <= b < |q'| && 0 <= i <= |q'[b]| ensures Linked(l', q', b, i) {
      InsertKeepsLink(l, q, a, k, t, b, i);
    }
  }

  /** Where each position was before the insertion. */
  lemma PositionBeforeInsert(l: Links, l': Links, q: Queues, a: nat, k: nat, t: nat, b: nat, i: nat)
    requires a < |q| && k <= |q[a]| && b < |q| && i <= |Inserted(q, a, k, t)[b]| + 1 && l'.heads == l.heads
    ensures At(l', Inserted(q, a, k, t), b, i) ==
      if b != a || i <= k then At(l, q, b, i) else if i == k + 1 then l.heads + t else At(l, q, b, i - 1)
  {
  }

  lemma InsertKeepsLink(l: Links, q: Queues, a: nat, k: nat, t: nat, b: nat, i: nat)
    requires Rings(l, q) && a < |q| && k <= |q[a]| && t < l.size - l.heads && !In(q, t)
    requires b < |q| && i <= |Inserted(q, a, k, t)[b]|
    ensures Linked(LinkIn(l, l.heads + t, At(l, q, a, k), At(l, q, a, k + 1)), Inserted(q, a, k, t), b, i)
  {
    var l' := LinkIn(l, l.heads + t, At(l, q, a, k), At(l, q, a, k + 1));
    PositionBeforeInsert(l, l', q, a, k, t, b, i);
    PositionBeforeInsert(l, l', q, a, k, t, b, i + 1);
    NotLinkedIn(l, q, a, k, t);
    NotLinkedIn(l, q, a, k + 1, t);
    assert Linked(l, q, a, k);
    if !(b == a && (i == k || i == k + 1)) {
      FarFromInserted(l, q, a, k, t, b, if b != a || i < k then i else i - 1);
    }
  }

  /** A link that is not the one split by the insertion is not assigned. */
  lemma FarFromInserted(l: Links, q: Queues, a: nat, k: nat, t: nat, b: nat, j: nat)
    requires Rings(l, q) && a < |q| && k <= |q[a]| && t < l.size - l.heads && !In(q, t)
    requires b < |q| && j <= |q[b]| && !(b == a && j == k)
    ensures var l' := LinkIn(l, l.heads + t, At(l, q, a, k), At(l, q, a, k + 1));
      var x, y := At(l, q, b, j), At(l, q, b, j + 1);
      x < |l.next| && y < |l.prev| && l'.next[x] == y && l'.prev[y] == x
  {
    PositionsApart(l, q, b, j, a, k);
    NotLinkedIn(l, q, b, j, t);
    NotLinkedIn(l, q, b, j + 1, t);
    assert Linked(l, q, b, j) && Linked(l, q, a, k);
  }

  /** __list_del and the clearing of the entry's own links. */
  ghost function LinkOut(l: Links, n: nat, before: nat, after: nat): Links
    requires n < |l.next| == |l.prev| && before < |l.next| && after < |l.prev|
  {
    l.(next := l.next[before := after][n := NULL], prev := l.prev[after := before][n := NULL])
  }

  /** Bypassing position i + 1 of list a removes exactly that element. */
  lemma RemoveKeepsRings(l: Links, q: Queues, a: nat, i: nat)
    requires Rings(l, q) && a < |q| && i < |q[a]|
    ensures Rings(LinkOut(l, At(l, q, a, i + 1), At(l, q, a, i), At(l, q, a, i + 2)), RemoveAt(q, a, i))
  {
    RemoveKeeps(q, a, i);
    var l', q' := LinkOut(l, At(l, q, a, i + 1), At(l, q, a, i), At(l, q, a, i + 2)), RemoveAt(q, a, i);
    forall b, j | 0 <= b < |q'| && 0 <= j <= |q'[b]| ensures Linked(l', q', b, j) {
      RemoveKeepsLink(l, q, a, i, b, j);
    }
  }

  /** Where each position was before the removal. */
  lemma PositionBeforeRemove(l: Links, l': Links, q: Queues, a: nat, i: nat, b: nat, j: nat)
    requires a < |q| && i < |q[a]| && b < |q| && j <= |RemoveAt(q, a, i)[b]| + 1 && l'.heads == l.heads
    ensures At(l', RemoveAt(q, a, i), b, j) == if b != a || j <= i then At(l, q, b, j) else At(l, q, b, j + 1)
  {
  }

  lemma RemoveKeepsLink(l: Links, q: Queues, a: nat, i: nat, b: nat, j: nat)
    requires Rings(l, q) && a < |q| && i < |q[a]| && b < |q| && j <= |RemoveAt(q, a, i)[b]|
    ensures Linked(LinkOut(l, At(l, q, a, i + 1), At(l, q, a, i), At(l, q, a, i + 2)), RemoveAt(q, a, i), b, j)
  {
    var l' := LinkOut(l, At(l, q, a, i + 1), At(l, q, a, i), At(l, q, a, i + 2));
    PositionBeforeRemove(l, l', q, a, i, b, j);
    PositionBeforeRemove(l, l', q, a, i, b, j + 1);
    assert Linked(l, q, a, i) && Linked(l, q, a, i + 1);
    if b == a && j == i {
      PositionsApart(l, q, a, i, a, i + 1);
    } else {
      FarFromRemoved(l, q, a, i, b, if b != a || j <= i then j else j + 1);
    }
  }

  /** A link that does not touch the removed element is not assigned. */
  lemma FarFromRemoved(l: Links, q: Queues, a: nat, i: nat, b: nat, m: nat)
    requires Rings(l, q) && a < |q| && i < |q[a]| && b < |q| && m <= |q[b]| && !(b == a && (m == i || m == i + 1))
    ensures var l' := LinkOut(l, At(l, q, a, i + 1), At(l, q, a, i), At(l, q, a, i + 2));
      var x, y := At(l, q, b, m), At(l, q, b, m + 1);
      x < |l.next| && y < |l.prev| && l'.next[x] == y && l'.prev[y] == x
  {
    PositionsApart(l, q, b, m, a, i);
    PositionsApart(l, q, b, m, a, i + 1);
    assert Linked(l, q, b, m) && Linked(l, q, a, i) && Linked(l, q, a, i + 1);
  }

  // ---------------------------------------------------------------- the heap

  /** A pool of nodes on the heap: `node[a]` for a < heads are list heads, `node[heads + t]` is embedded in PCB t. The
      ghost fields are the links as values, and the lists they mean. */
  class Pool {
    const node: seq<ListHead>
    const heads: nat
    ghost var links: Links
    ghost var lists: Queues

    ghost predicate Points(p: ListHead?, n: int)
    {
      if n == NULL then p == null else 0 <= n < |node| && p == node[n]
    }

    /** The pointers are what `links` says. */
    ghost predicate Tied()
      reads this`links, node
    {
      && links.size == |node| == |links.next| == |links.prev| && links.heads == heads
      && (forall x :: 0 <= x < |node| ==> node[x].id == x)
      && (forall x :: 0 <= x < |node| ==> NodeTied(x))
    }

    ghost predicate NodeTied(x: nat)
      reads this`links, node
      requires x < |node| == |links.next| == |links.prev|
    {
      Points(node[x].next, links.next[x]) && Points(node[x].prev, links.prev[x])
    }

    ghost predicate Valid()
      reads this, node
    {
      Tied() && Rings(links, lists)
    }

    /** Number of PCBs. */
    ghost function Tasks(): int
    {
      |node| - heads
    }

    /** A pool of unlinked PCB nodes and `heads` empty lists. */
    constructor (heads: nat, tasks: nat)
      ensures Valid() && this.heads == heads && Tasks() == tasks
      ensures lists == seq(heads, _ => []) && fresh(node)
    {
      var nodes: seq<ListHead> := [];
      while |nodes| < heads + tasks
        invariant |nodes| <= heads + tasks
        invariant forall x :: 0 <= x < |nodes| ==>
            nodes[x].id == x && fresh(nodes[x]) && nodes[x].next == null == nodes[x].prev
      {
        var n := new ListHead(|nodes|);
        nodes := nodes + [n];
      }
      for a := 0 to heads
        invariant forall x :: 0 <= x < |nodes| ==> nodes[x].id == x && fresh(nodes[x])
        invariant forall x :: 0 <= x < a ==> nodes[x].next == nodes[x] == nodes[x].prev
        invariant forall x :: a <= x < |nodes| ==> nodes[x].next == null == nodes[x].prev
      {
        InitListHead(nodes[a]);
      }
      node := nodes;
      this.heads := heads;
      lists := seq(heads, _ => []);
      ghost var own := seq(heads + tasks, x => if x < heads then x else NULL);
      links := Links(heads + tasks, heads, own, own);
    }

    /** The pointer behind a link of list a. */
    lemma Follow(a: nat, i: nat)
      requires Valid() && a < heads && i <= |lists[a]|
      ensures var x, y := At(links, lists, a, i), At(links, lists, a, i + 1);
        x < |node| && y < |node| && node[x].next == node[y] && node[y].prev == node[x]
    {
      assert Linked(links, lists, a, i);
      assert NodeTied(At(links, lists, a, i)) && NodeTied(At(links, lists, a, i + 1));
    }

    /** The neighbours of element i of list a. */
    lemma Entry(a: nat, i: nat)
      requires Valid() && a < heads && i < |lists[a]|
      ensures var x, n, y := At(links, lists, a, i), heads + lists[a][i], At(links, lists, a, i + 2);
        && n == At(links, lists, a, i + 1) && x < |node| && y < |node| && n < |node| && x != n && y != n
        && node[n].prev == node[x] && node[n].next == node[y]
    {
      Follow(a, i);
      Follow(a, i + 1);
      PositionsApart(links, lists, a, i, a, i + 1);
    }

    /** list_empty */
    method ListEmpty(a: nat) returns (empty: bool)
      requires Valid() && a < heads
      ensures empty <==> lists[a] == []
    {
      Follow(a, 0);
      empty := node[a].next == node[a];
    }

    /** list_first, as the PCB it is embedded in. */
    method ListFirst(a: nat) returns (t: nat)
      requires Valid() && a < heads && lists[a] != []
      ensures t == lists[a][0]
    {
      Follow(a, 0);
      t := node[a].next.id - heads;
    }

    /** list_is_last */
    method ListIsLast(a: nat, ghost i: nat, t: nat) returns (last: bool)
      requires Valid() && a < heads && i < |lists[a]| && lists[a][i] == t
      ensures last <==> i == |lists[a]| - 1
    {
      Follow(a, i + 1);
      assert At(links, lists, a, i + 2) == a <==> i == |lists[a]| - 1;
      last := node[heads + t].next == node[a];
    }

    /** __list_add, as a change of links. */
    method Link(n: ListHead, before: ListHead, after: ListHead)
      requires Tied() && Points(n, n.id) && Points(before, before.id) && Points(after, after.id) && n != before
        && n != after
      modifies this`links, n, before, after
      ensures Tied() && links == LinkIn(old(links), n.id, before.id, after.id)
    {
      LinkBetween(n, before, after);
      links := LinkIn(links, n.id, before.id, after.id);
      forall x | 0 <= x < |node| ensures NodeTied(x) {
        assert old(NodeTied(x));
      }
    }

    /** __list_del and the clearing of the entry's links, as a change of links. */
    method Unlink(n: ListHead, before: ListHead, after: ListHead)
      requires Tied() && Points(n, n.id) && Points(before, before.id) && Points(after, after.id) && n != before
        && n != after
      modifies this`links, n, before, after
      ensures Tied() && links == LinkOut(old(links), n.id, before.id, after.id)
      ensures n.next == null == n.prev
    {
      Bypass(before, after);
      n.next := null;
      n.prev := null;
      links := LinkOut(links, n.id, before.id, after.id);
      forall x | 0 <= x < |node| ensures NodeTied(x) {
        assert old(NodeTied(x));
      }
    }

    /** Links PCB t in between positions k and k + 1 of list a. */
    method InsertBetween(a: nat, ghost k: nat, t: nat, before: ListHead, after: ListHead)
      requires Valid() && a < heads && t < Tasks() && !In(lists, t) && k <= |lists[a]|
      requires At(links, lists, a, k) < |node| && before == node[At(links, lists, a, k)]
      requires At(links, lists, a, k + 1) < |node| && after == node[At(links, lists, a, k + 1)]
      modifies this`links, this`lists, node[heads + t], before, after
      ensures Valid() && lists == Inserted(old(lists), a, k, t)
    {
      NotLinkedIn(links, lists, a, k, t);
      NotLinkedIn(links, lists, a, k + 1, t);
      InsertKeepsRings(links, lists, a, k, t);
      Link(node[heads + t], before, after);
      lists := Inserted(lists, a, k, t);
    }

    /** list_add */
    method ListAdd(a: nat, t: nat)
      requires Valid() && a < heads && t < Tasks() && !In(lists, t)
      modifies this`links, this`lists, node[heads + t], node[a], node[a].next
      ensures Valid() && lists == Prepend(old(lists), a, t)
    {
      Follow(a, 0);
      assert lists[a][..0] + [t] + lists[a][0..] == [t] + lists[a];
      InsertBetween(a, 0, t, node[a], node[a].next);
    }

    /** list_add_tail */
    method ListAddTail(a: nat, t: nat)
      requires Valid() && a < heads && t < Tasks() && !In(lists, t)
      modifies this`links, this`lists, node[heads + t], node[a], node[a].prev
      ensures Valid() && lists == Append(old(lists), a, t)
    {
      ghost var n := |lists[a]|;
      Follow(a, n);
      assert lists[a][..n] + [t] + lists[a][n..] == lists[a] + [t];
      InsertBetween(a, n, t, node[a].prev, node[a]);
    }

    /** list_del */
    method ListDel(ghost a: nat, ghost i: nat, t: nat)
      requires Valid() && a < heads && i < |lists[a]| && lists[a][i] == t
      modifies this`links, this`lists, node[heads + t], node[heads + t].prev, node[heads + t].next
      ensures Valid() && lists == RemoveAt(old(lists), a, i)
      ensures heads + t < |node| && node[heads + t].next == null == node[heads + t].prev
    {
      ghost var x, y := At(links, lists, a, i), At(links, lists, a, i + 2);
      Entry(a, i);
      var entry := node[heads + t];
      var before, after := entry.prev, entry.next;
      assert before == node[x] && after == node[y];
      RemoveKeepsRings(links, lists, a, i);
      Unlink(entry, before, after);
      lists := RemoveAt(lists, a, i);
    }

    /** list_for_each: the traversal ends and visits exactly the list, in order. */
    method ForEach(a: nat) returns (visited: seq<nat>)
      requires Valid() && a < heads
      ensures visited == lists[a]
    {
      Follow(a, 0);
      visited := [];
      var pos := node[a].next;
      while pos != node[a]
        invariant |visited| <= |lists[a]| && visited == lists[a][..|visited|]
        invariant At(links, lists, a, |visited| + 1) < |node| && pos == node[At(links, lists, a, |visited| + 1)]
        decreases |lists[a]| - |visited|
      {
        Follow(a, |visited| + 1);
        visited := visited + [pos.id - heads];
        pos := pos.next;
      }
    }

    /** list_for_each_safe with a body that deletes the entry: every entry is met once and the list ends empty. */
    method DeleteEach(a: nat) returns (visited: seq<nat>)
      requires Valid() && a < heads
      modifies this`links, this`lists, node
      ensures Valid() && visited == old(lists[a]) && lists == old(lists)[a := []]
    {
      ghost var whole := lists[a];
      Follow(a, 0);
      visited := [];
      var pos: ListHead := node[a].next;
      var n := pos.next;
      while pos != node[a]
        invariant Valid() && |visited| <= |whole| && visited == whole[..|visited|]
        invariant lists == old(lists)[a := whole[|visited|..]]
        invariant pos == node[a].next && n == pos.next
        decreases |whole| - |visited|
      {
        var t := DeleteFirst(a, pos, n);
        assert whole[|visited|..][1..] == whole[|visited| + 1..];
        visited := visited + [t];
        Follow(a, 0);
        pos := n;
        n := pos.next;
      }
      Follow(a, 0);
    }

    /** One turn of that loop: the entry after the head goes, and the saved pointer is the new entry after the head. */
    method DeleteFirst(a: nat, pos: ListHead, n: ListHead?) returns (t: nat)
      requires Valid() && a < heads && pos == node[a].next && n == pos.next && pos != node[a]
      modifies this`links, this`lists, node
      ensures old(lists[a]) != [] && t == old(lists[a])[0]
      ensures Valid() && lists == old(lists)[a := old(lists[a])[1..]] && n == node[a].next
    {
      Follow(a, 0);
      Entry(a, 0);
      t := pos.id - heads;
      ListDel(a, 0, t);
      assert lists[a] == old(lists[a])[1..];
      Follow(a, 0);
    }

    /** Any run of operations, on any number of lists: the pointers end up meaning what the sequences say. */
    method Run(ops: seq<Op>)
      requires Valid() && AllEnabled(lists, Tasks(), ops)
      modifies this`links, this`lists, node
      ensures Valid() && lists == ApplyAll(old(lists), Tasks(), ops)
    {
      for n := 0 to |ops|
        invariant Valid() && AllEnabled(lists, Tasks(), ops[n..])
        invariant ApplyAll(lists, Tasks(), ops[n..]) == ApplyAll(old(lists), Tasks(), ops)
      {
        assert ops[n..][0] == ops[n] && ops[n..][1..] == ops[n + 1..];
        match ops[n]
        case Add(a, t) => Follow(a, 0); ListAdd(a, t);
        case AddTail(a, t) => Follow(a, |lists[a]|); ListAddTail(a, t);
        case Del(a, i) => var t := Nth(a, i); Entry(a, i); ListDel(a, i, t);
      }
    }

    /** The PCB at position i, reached by following next. */
    method Nth(a: nat, i: nat) returns (t: nat)
      requires Valid() && a < heads && i < |lists[a]|
      ensures t == lists[a][i]
    {
      Follow(a, 0);
      var pos := node[a].next;
      for j := 0 to i
        invariant At(links, lists, a, j + 1) < |node| && pos == node[At(links, lists, a, j + 1)]
      {
        Follow(a, j + 1);
        pos := pos.next;
      }
      t := pos.id - heads;
    }
  }
}
