/** Page tables, the CR3 register, the TLB and physical memory; what fork and exit do to them. */
module Memory {
  import opened Params
  import opened Frames

  newtype Byte = x: int | 0 <= x < 256

  /** The bits of a page table entry that the kernel sets. */
  datatype Pte = Pte(frame: nat, present: bool, rw: bool, user: bool)

  type Table = seq<Pte>

  /** The entry whose 32 bits are zero. */
  const NO_PAGE: Pte := Pte(0, false, false, false)

  /** set_ss_pag; the frame field has 20 bits. */
  function UserPage(frame: nat): (e: Pte)
    ensures frame < 0x10_0000 ==> e.frame == frame
  {
    Pte(frame % 0x10_0000, true, true, true)
  }

  datatype Option<+T> = None | Some(value: T)

  /** `cr3` is the index of the installed directory (directory i points to table i); `tlb` maps pages to cached
      frames. */
  datatype Mm = Mm(used: seq<bool>, pt: seq<Table>, mem: seq<seq<Byte>>, cr3: nat, tlb: map<nat, nat>)

  // ---------------------------------------------------------------- operations

  /** init_table_pages: identity map of the kernel, page 0 left out. */
  function InitialTable(c: Config): (t: Table)
    ensures |t| == c.total
    ensures forall p :: 0 <= p < c.total ==> t[p] == if 1 <= p < c.kernel then Pte(p, true, true, false) else NO_PAGE
  {
    seq(c.total, p => if 1 <= p < c.kernel then Pte(p, true, true, false) else NO_PAGE)
  }

  /** The frames of `n` pages from `page` on, as get_frame reads them. */
  function FramesOf(t: Table, page: nat, n: nat): (r: seq<nat>)
    requires page + n <= |t|
    ensures |r| == n && forall i :: 0 <= i < n ==> r[i] == t[page + i].frame
  {
    seq<nat>(n, i requires 0 <= i < n => t[page + i].frame)
  }

  /** set_ss_pag on consecutive pages. */
  function MapPages(t: Table, page: nat, frames: seq<nat>): (r: Table)
    requires page + |frames| <= |t|
    ensures |r| == |t|
    ensures forall p :: 0 <= p < |t| ==> r[p] == if page <= p < page + |frames| then UserPage(frames[p - page])
      else t[p]
  {
    seq(|t|, p requires 0 <= p < |t| => if page <= p < page + |frames| then UserPage(frames[p - page]) else t[p])
  }

  /** del_ss_pag on consecutive pages. */
  function UnmapPages(t: Table, page: nat, n: nat): (r: Table)
    requires page + n <= |t|
    ensures |r| == |t|
  {
    seq(|t|, p requires 0 <= p < |t| => if page <= p < page + n then NO_PAGE else t[p])
  }

  /** Position of `x` in `s`, or -1. */
  function IndexOf(s: seq<nat>, x: nat): (i: int)
    ensures -1 <= i < |s|
    ensures i >= 0 ==> s[i] == x
    ensures i == -1 <==> x !in s
  {
    if s == [] then -1
    else if s[|s| - 1] == x then |s| - 1
    else IndexOf(s[..|s| - 1], x)
  }

  /** Whole frames copied: frame dst[i] becomes what src[i] was. */
  function CopyFrames(mem: seq<seq<Byte>>, src: seq<nat>, dst: seq<nat>): (r: seq<seq<Byte>>)
    requires |src| == |dst| && forall i :: 0 <= i < |src| ==> src[i] < |mem|
    ensures |r| == |mem|
  {
    seq(|mem|, f requires 0 <= f < |mem| => var i := IndexOf(dst, f); if i >= 0 then mem[src[i]] else mem[f])
  }

  /** set_cr3: installs a directory and empties the TLB. */
  function SetCr3(m: Mm, dir: nat): Mm
  {
    m.(cr3 := dir, tlb := map[])
  }

  /** Shapes of the arrays, and frame numbers within memory. */
  ghost predicate Shape(c: Config, m: Mm)
  {
    && c.Valid()
    && |m.used| == c.total && |m.mem| == c.total && |m.pt| == c.nr
    && (forall f :: 0 <= f < c.total ==> |m.mem[f]| == PAGE_SIZE)
    && (forall t :: 0 <= t < c.nr ==> |m.pt[t]| == c.total)
    && (forall t, p :: 0 <= t < c.nr && 0 <= p < c.total ==> m.pt[t][p].frame < c.total)
    && m.cr3 < c.nr
  }

  /** The memory side of sys_fork: share the code pages, reserve frames, map them, copy through the window, unmap,
      flush. The window is in the parent's table, so the parent's table is what comes back changed there. */
  function Fork(c: Config, m: Mm, parent: nat, child: nat): (r: (Mm, bool))
    requires c.Valid() && |m.used| == c.total && parent < |m.pt| && child < |m.pt|
    requires |m.pt[parent]| == |m.pt[child]| == c.total == |m.mem|
    requires forall p :: 0 <= p < c.total ==> m.pt[parent][p].frame < c.total
  {
    var shared := MapPages(m.pt[child], c.kernel, FramesOf(m.pt[parent], c.kernel, c.code));
    var a := AllocFrames(c, m.used, c.data);
    if |a.frames| < c.data then
      (m.(used := FreeAll(c, a.used, a.frames + [AsUnsigned(-1)]), pt := m.pt[child := shared]), false)
    else
      (Mm(a.used,
          m.pt[parent := UnmapPages(m.pt[parent], c.WindowPage(), c.data)][child :=
              MapPages(shared, c.DataPage(), a.frames)],
          CopyFrames(m.mem, FramesOf(m.pt[parent], c.DataPage(), c.data), a.frames),
          parent, map[]),
       true)
  }

  /** The memory side of sys_exit: the frames are released, the table is left as it is. */
  function Exit(c: Config, m: Mm, dir: nat): Mm
    requires c.Valid() && dir < |m.pt| && |m.pt[dir]| == c.total
  {
    m.(used := FreeAll(c, m.used, FramesOf(m.pt[dir], c.DataPage(), c.data)))
  }

  // ---------------------------------------------------------------- address translation

  /** Table walk. */
  function Walk(t: Table, page: nat): Option<nat>
  {
    if page < |t| && t[page].present then Some(t[page].frame) else None
  }

  /** What the processor uses: a cached translation if there is one. */
  function Translate(m: Mm, page: nat): Option<nat>
    requires m.cr3 < |m.pt|
  {
    if page in m.tlb then Some(m.tlb[page]) else Walk(m.pt[m.cr3], page)
  }

  /** The byte that directory `dir` shows at virtual address `va`, if the page is mapped. */
  function View(m: Mm, dir: nat, va: nat): Option<Byte>
    requires dir < |m.pt|
  {
    match Walk(m.pt[dir], va / PAGE_SIZE)
    case None => None
    case Some(f) =>
      if f < |m.mem| && va % PAGE_SIZE < |m.mem[f]| then Some(m.mem[f][va % PAGE_SIZE]) else None
  }

  /** Every cached translation is what the installed table says. */
  ghost predicate TlbCoherent(m: Mm)
  {
    m.cr3 < |m.pt| && forall p :: p in m.tlb ==> Walk(m.pt[m.cr3], p) == Some(m.tlb[p])
  }

  // ---------------------------------------------------------------- the invariant

  /** A task with an address space: neither idle nor in the free list. */
  predicate Live(c: Config, free: seq<nat>, t: int)
  {
    0 <= t < c.nr - 1 && t !in free
  }

  predicate CodeFrame(c: Config, f: int)
  {
    Slot(c, f) && f < c.kernel + 2 * c.code
  }

  /** Data frame `j` of an address space. */
  function DataFrame(c: Config, t: Table, j: nat): nat
    requires c.DataPage() + j < |t|
  {
    t[c.DataPage() + j].frame
  }

  /** The part every table has: the kernel mapped onto itself, nothing past the user pages. */
  ghost predicate SystemPart(c: Config, t: Table)
  {
    && |t| == c.total
    && (forall p :: 0 <= p < c.kernel && p < c.total ==> t[p] == InitialTable(c)[p])
    && (forall p :: c.WindowPage() <= p < c.total ==> t[p] == NO_PAGE)
  }

  /** A full user address space: the shared code frames, then writable data pages. */
  ghost predicate UserPart(c: Config, t: Table)
    requires |t| == c.total && c.WindowPage() <= c.total
  {
    && (forall p :: c.kernel <= p < c.DataPage() ==>
        t[p].present && t[p].user && t[p].frame == c.kernel + 2 * (p - c.kernel))
    && (forall p :: c.DataPage() <= p < c.WindowPage() ==> t[p].present && t[p].user && t[p].rw)
  }

  ghost predicate NoUserPart(c: Config, t: Table)
  {
    forall p :: c.kernel <= p < |t| ==> t[p] == NO_PAGE
  }

  /** Which pages each table maps. */
  ghost predicate TablesOk(c: Config, m: Mm, free: seq<nat>)
    requires Shape(c, m)
  {
    && (forall t :: 0 <= t < c.nr ==> SystemPart(c, m.pt[t]))
    && (forall t :: Live(c, free, t) ==> UserPart(c, m.pt[t]))
    && NoUserPart(c, m.pt[c.nr - 1])
  }

  /** The data frames of one address space are ordinary frames in use, all different. */
  ghost predicate OwnFrames(c: Config, used: seq<bool>, t: Table)
    requires |t| == c.total == |used| && c.WindowPage() <= c.total
  {
    && (forall j :: 0 <= j < c.data ==> var f := DataFrame(c, t, j); Slot(c, f) && !CodeFrame(c, f) && used[f])
    && (forall j, k :: 0 <= j < k < c.data ==> DataFrame(c, t, j) != DataFrame(c, t, k))
  }

  ghost predicate NoSharing(c: Config, t: Table, u: Table)
    requires |t| == |u| == c.total && c.WindowPage() <= c.total
  {
    forall j, k :: 0 <= j < c.data && 0 <= k < c.data ==> DataFrame(c, t, j) != DataFrame(c, u, k)
  }

  ghost predicate OwnedBy(c: Config, t: Table, f: int)
    requires |t| == c.total && c.WindowPage() <= c.total
  {
    exists j :: 0 <= j < c.data && DataFrame(c, t, j) == f
  }

  /** Who owns which frame: the code frames are shared, every data frame has exactly one live owner, nothing leaks. */
  ghost predicate FramesOk(c: Config, m: Mm, free: seq<nat>)
    requires Shape(c, m)
  {
    && (forall f :: 0 <= f < c.kernel || CodeFrame(c, f) ==> m.used[f])
    && (forall t :: Live(c, free, t) ==> OwnFrames(c, m.used, m.pt[t]))
    && (forall t, u :: Live(c, free, t) && Live(c, free, u) && t != u ==> NoSharing(c, m.pt[t], m.pt[u]))
    && (forall f :: c.kernel <= f < c.total && m.used[f] ==>
          CodeFrame(c, f) || exists t :: Live(c, free, t) && OwnedBy(c, m.pt[t], f))
  }

  /** Conservation: the code, `data` frames per live task, and the free slots make up all slots. */
  ghost predicate CountOk(c: Config, m: Mm, free: seq<nat>)
    requires Shape(c, m)
  {
    FreeSlots(c, m.used, c.kernel) + c.code + c.data * (c.nr - 1 - |free|) == c.Slots()
  }

  ghost predicate MmOk(c: Config, m: Mm, free: seq<nat>)
  {
    && Shape(c, m) && TablesOk(c, m, free) && FramesOk(c, m, free) && CountOk(c, m, free)
    && TlbCoherent(m)
  }

  // ---------------------------------------------------------------- fork

  /** Fork gets its frames exactly when the data of one more process fits; there is no other way to fail. */
  lemma ForkSucceedsIff(c: Config, m: Mm, free: seq<nat>, parent: nat, child: nat)
    requires MmOk(c, m, free) && parent < c.nr && child < c.nr
    ensures Fork(c, m, parent, child).1 <==> c.code + c.data * (c.nr - |free|) <= c.Slots()
  {
    AllocFramesSpec(c, m.used, c.data);
    OneMore(c.data, c.nr - 1 - |free|);
  }

  /** Sharing the code pages touches only the code pages. */
  lemma SharedTable(c: Config, parent: Table, child: Table)
    requires c.Valid() && SystemPart(c, child) && |parent| == c.total && UserPart(c, parent)
    ensures var t := MapPages(child, c.kernel, FramesOf(parent, c.kernel, c.code));
      && SystemPart(c, t)
      && (forall p :: 0 <= p < c.total ==> t[p].frame < c.total || t[p] == child[p])
      && (forall p :: c.kernel <= p < c.DataPage() ==> t[p] == UserPage(c.kernel + 2 * (p - c.kernel)))
  {
  }

  /** Mapping the data pages completes the address space. */
  lemma CompletedTable(c: Config, shared: Table, frames: seq<nat>)
    requires c.Valid() && SystemPart(c, shared) && |frames| == c.data
    requires forall p :: c.kernel <= p < c.DataPage() ==> shared[p] == UserPage(c.kernel + 2 * (p - c.kernel))
    requires forall j :: 0 <= j < c.data ==> frames[j] < c.total
    ensures var t := MapPages(shared, c.DataPage(), frames);
      && SystemPart(c, t) && UserPart(c, t)
      && (forall p :: 0 <= p < c.total ==> t[p].frame < c.total || t[p] == shared[p])
      && (forall j :: 0 <= j < c.data ==> DataFrame(c, t, j) == frames[j])
  {
  }

  lemma WindowWasEmpty(c: Config, t: Table)
    requires c.Valid() && SystemPart(c, t)
    ensures UnmapPages(t, c.WindowPage(), c.data) == t
  {
  }

  /** A table that is neither live nor idle nor installed may change freely outside the system part. */
  lemma DeadTableIsFree(c: Config, m: Mm, free: seq<nat>, child: nat, t: Table)
    requires MmOk(c, m, free) && child in free && child < c.nr - 1 && child != m.cr3
    requires SystemPart(c, t) && forall p :: 0 <= p < c.total ==> t[p].frame < c.total
    ensures MmOk(c, m.(pt := m.pt[child := t]), free)
  {
    var m' := m.(pt := m.pt[child := t]);
    assert forall u :: Live(c, free, u) ==> m'.pt[u] == m.pt[u];
  }

  /** A failed fork leaves frames, memory and every other table alone. */
  lemma FailedForkKeeps(c: Config, m: Mm, free: seq<nat>, parent: nat, child: nat)
    requires MmOk(c, m, free) && Live(c, free, parent) && child in free && child < c.nr - 1 && m.cr3 == parent
    requires !Fork(c, m, parent, child).1
    ensures var m' := Fork(c, m, parent, child).0;
      && MmOk(c, m', free) && m'.used == m.used && m'.mem == m.mem
      && m'.pt[child := m.pt[child]] == m.pt
  {
    assert CodeFrame(c, c.kernel);
    RollbackIsExact(c, m.used, c.data);
    SharedTable(c, m.pt[parent], m.pt[child]);
    var t := MapPages(m.pt[child], c.kernel, FramesOf(m.pt[parent], c.kernel, c.code));
    assert forall p :: 0 <= p < c.total ==> t[p].frame < c.total;
    DeadTableIsFree(c, m, free, child, t);
  }

  /** What a successful fork did: `frames` were free and distinct, they are the child's data and hold the parent's, and
      only the child's table differs. */
  ghost predicate Forked(c: Config, m: Mm, m': Mm, parent: nat, child: nat, frames: seq<nat>)
    requires c.Valid() && parent < |m.pt| == c.nr && child < c.nr
  {
    && |frames| == c.data && Distinct(frames)
    && |m.used| == |m'.used| == |m.mem| == |m'.mem| == c.total == |m.pt[parent]|
    && (forall j :: 0 <= j < c.data ==> Slot(c, frames[j]) && !m.used[frames[j]])
    && (forall f :: 0 <= f < c.total ==> m'.used[f] == (m.used[f] || f in frames))
    && FreeSlots(c, m'.used, c.kernel) == FreeSlots(c, m.used, c.kernel) - c.data
    && (forall j :: 0 <= j < c.data ==> DataFrame(c, m.pt[parent], j) < c.total
                                        && m'.mem[frames[j]] == m.mem[DataFrame(c, m.pt[parent], j)])
    && (forall f :: 0 <= f < c.total && f !in frames ==> m'.mem[f] == m.mem[f])
    && |m'.pt| == c.nr && m'.pt == m.pt[child := m'.pt[child]]
    && SystemPart(c, m'.pt[child]) && UserPart(c, m'.pt[child])
    && (forall j :: 0 <= j < c.data ==> DataFrame(c, m'.pt[child], j) == frames[j])
    && (forall p :: 0 <= p < c.total ==> m'.pt[child][p].frame < c.total)
    && m'.cr3 == parent && m'.tlb == map[]
  }

  lemma ForkForks(c: Config, m: Mm, free: seq<nat>, parent: nat, child: nat) returns (frames: seq<nat>)
    requires MmOk(c, m, free) && Live(c, free, parent) && child in free && child < c.nr - 1
    requires Fork(c, m, parent, child).1
    ensures Forked(c, m, Fork(c, m, parent, child).0, parent, child, frames)
  {
    frames := AllocFrames(c, m.used, c.data).frames;
    AllocFramesSpec(c, m.used, c.data);
    ForkTables(c, m, parent, child, frames);
    ForkMemory(c, m, parent, child);
  }

  /** The child has a full address space on its new frames and no other table differs. */
  lemma ForkTables(c: Config, m: Mm, parent: nat, child: nat, frames: seq<nat>)
    requires Shape(c, m) && parent < c.nr && child < c.nr && parent != child && Fork(c, m, parent, child).1
    requires SystemPart(c, m.pt[parent]) && UserPart(c, m.pt[parent]) && SystemPart(c, m.pt[child])
    requires frames == AllocFrames(c, m.used, c.data).frames && |frames| == c.data
    requires forall j :: 0 <= j < c.data ==> frames[j] < c.total
    ensures var m' := Fork(c, m, parent, child).0;
      && |m'.pt| == c.nr && m'.pt == m.pt[child := m'.pt[child]]
      && SystemPart(c, m'.pt[child]) && UserPart(c, m'.pt[child])
      && (forall j :: 0 <= j < c.data ==> DataFrame(c, m'.pt[child], j) == frames[j])
      && (forall p :: 0 <= p < c.total ==> m'.pt[child][p].frame < c.total)
  {
    SharedTable(c, m.pt[parent], m.pt[child]);
    var shared := MapPages(m.pt[child], c.kernel, FramesOf(m.pt[parent], c.kernel, c.code));
    CompletedTable(c, shared, frames);
    WindowWasEmpty(c, m.pt[parent]);
  }

  /** The memory is copied where the child looks and nowhere else. */
  lemma ForkMemory(c: Config, m: Mm, parent: nat, child: nat)
    requires Shape(c, m) && parent < c.nr && child < c.nr && Fork(c, m, parent, child).1
    ensures var m', frames := Fork(c, m, parent, child).0, AllocFrames(c, m.used, c.data).frames;
      && |frames| == c.data && |m'.mem| == c.total
      && (forall j :: 0 <= j < c.data ==>
          frames[j] < c.total && m'.mem[frames[j]] == m.mem[DataFrame(c, m.pt[parent], j)])
      && (forall f :: 0 <= f < c.total && f !in frames ==> m'.mem[f] == m.mem[f])
  {
    AllocFramesSpec(c, m.used, c.data);
    var src, frames := FramesOf(m.pt[parent], c.DataPage(), c.data), AllocFrames(c, m.used, c.data).frames;
    assert forall j :: 0 <= j < c.data ==> src[j] == DataFrame(c, m.pt[parent], j);
    CopyFramesAt(m.mem, src, frames);
  }

  /** Copying to distinct frames: each target holds its source, everything else is as before. */
  lemma CopyFramesAt(mem: seq<seq<Byte>>, src: seq<nat>, dst: seq<nat>)
    requires |src| == |dst| && Distinct(dst) && forall i :: 0 <= i < |src| ==> src[i] < |mem| && dst[i] < |mem|
    ensures forall i :: 0 <= i < |src| ==> CopyFrames(mem, src, dst)[dst[i]] == mem[src[i]]
    ensures forall f :: 0 <= f < |mem| && f !in dst ==> CopyFrames(mem, src, dst)[f] == mem[f]
  {
    forall i | 0 <= i < |dst| ensures IndexOf(dst, dst[i]) == i {
      assert dst[i] in dst;
    }
  }

  /** Frames that were not in use belong to no address space there was. */
  lemma FreshFramesApart(c: Config, used: seq<bool>, used': seq<bool>, t: Table, u: Table)
    requires c.Valid() && |used| == |used'| == |t| == |u| == c.total && OwnFrames(c, used, t)
    requires forall f :: 0 <= f < c.total && used[f] ==> used'[f]
    requires forall j :: 0 <= j < c.data ==> DataFrame(c, u, j) < c.total && !used[DataFrame(c, u, j)]
    ensures OwnFrames(c, used', t) && NoSharing(c, t, u) && NoSharing(c, u, t)
  {
  }

  /** Frame ownership after a fork: the child's frames were nobody's. */
  lemma ForkFrames(c: Config, m: Mm, m': Mm, free: seq<nat>, parent: nat, child: nat, frames: seq<nat>)
    requires Shape(c, m) && FramesOk(c, m, free) && parent < c.nr && child < c.nr
      && Forked(c, m, m', parent, child, frames)
    ensures OwnFrames(c, m'.used, m'.pt[child])
    ensures forall t :: Live(c, free, t) ==>
      OwnFrames(c, m'.used, m.pt[t]) && NoSharing(c, m.pt[t], m'.pt[child]) && NoSharing(c, m'.pt[child], m.pt[t])
    ensures forall f :: 0 <= f < c.total && m'.used[f] ==> m.used[f] || OwnedBy(c, m'.pt[child], f)
  {
    assert forall j :: 0 <= j < c.data ==> frames[j] in frames;
    forall t | Live(c, free, t)
      ensures OwnFrames(c, m'.used, m.pt[t])
      ensures NoSharing(c, m.pt[t], m'.pt[child]) && NoSharing(c, m'.pt[child], m.pt[t])
    {
      FreshFramesApart(c, m.used, m'.used, m.pt[t], m'.pt[child]);
    }
    forall f | 0 <= f < c.total && m'.used[f] && !m.used[f] ensures OwnedBy(c, m'.pt[child], f) {
      var j :| 0 <= j < c.data && frames[j] == f;
      assert DataFrame(c, m'.pt[child], j) == f;
    }
  }

  ghost predicate HasOwner(c: Config, pt: seq<Table>, free: seq<nat>, f: int)
    requires |pt| == c.nr && c.WindowPage() <= c.total && forall t :: 0 <= t < c.nr ==> |pt[t]| == c.total
  {
    exists t :: Live(c, free, t) && OwnedBy(c, pt[t], f)
  }

  /** Taking a PCB off the free list with a table whose frames were nobody's. */
  lemma AddOwner(c: Config, m: Mm, m': Mm, free: seq<nat>)
    requires Shape(c, m) && Shape(c, m') && FramesOk(c, m, free)
    requires free != [] && free[0] < c.nr - 1 && free[0] !in free[1..]
    requires m'.pt == m.pt[free[0] := m'.pt[free[0]]]
    requires OwnFrames(c, m'.used, m'.pt[free[0]])
    requires forall t :: Live(c, free, t) ==>
      OwnFrames(c, m'.used, m.pt[t]) && NoSharing(c, m.pt[t], m'.pt[free[0]]) && NoSharing(c, m'.pt[free[0]], m.pt[t])
    requires forall f :: 0 <= f < c.total && m'.used[f] ==> m.used[f] || OwnedBy(c, m'.pt[free[0]], f)
    requires forall f :: 0 <= f < c.total && m.used[f] ==> m'.used[f]
    ensures FramesOk(c, m', free[1..])
  {
    var child, free' := free[0], free[1..];
    assert forall t :: Live(c, free', t) <==> Live(c, free, t) || t == child;
    assert forall t :: Live(c, free, t) ==> m'.pt[t] == m.pt[t];
    forall f | c.kernel <= f < c.total && m'.used[f] && !CodeFrame(c, f) ensures HasOwner(c, m'.pt, free', f) {
      if m.used[f] {
        assert HasOwner(c, m.pt, free, f);
        var t :| Live(c, free, t) && OwnedBy(c, m.pt[t], f);
        assert Live(c, free', t) && OwnedBy(c, m'.pt[t], f);
      } else {
        assert Live(c, free', child) && OwnedBy(c, m'.pt[child], f);
      }
    }
  }

  lemma ForkShape(c: Config, m: Mm, m': Mm, parent: nat, child: nat, frames: seq<nat>)
    requires Shape(c, m) && parent < c.nr && child < c.nr && Forked(c, m, m', parent, child, frames)
    ensures Shape(c, m')
  {
    forall f | 0 <= f < c.total ensures |m'.mem[f]| == PAGE_SIZE {
      if f in frames {
        var j :| 0 <= j < c.data && frames[j] == f;
        assert m'.mem[frames[j]] == m.mem[DataFrame(c, m.pt[parent], j)];
      }
    }
  }

  /** Fork keeps the memory invariant with the child taken off the free list. */
  lemma ForkKeeps(c: Config, m: Mm, m': Mm, free: seq<nat>, parent: nat, frames: seq<nat>)
    requires MmOk(c, m, free) && parent < c.nr && free != [] && free[0] < c.nr - 1 && free[0] !in free[1..]
    requires Forked(c, m, m', parent, free[0], frames)
    ensures MmOk(c, m', free[1..])
  {
    ForkShape(c, m, m', parent, free[0], frames);
    assert FramesOk(c, m', free[1..]) by {
      ForkFrames(c, m, m', free, parent, free[0], frames);
      AddOwner(c, m, m', free);
    }
    ForkTablesOk(c, m, m', free, parent, frames);
    OneMore(c.data, c.nr - 1 - |free|);
  }

  /** The two together, for the function itself. */
  lemma ForkSuccessKeeps(c: Config, m: Mm, free: seq<nat>, parent: nat)
    requires MmOk(c, m, free) && Live(c, free, parent) && free != [] && free[0] < c.nr - 1 && free[0] !in free[1..]
    requires Fork(c, m, parent, free[0]).1
    ensures MmOk(c, Fork(c, m, parent, free[0]).0, free[1..]) && Fork(c, m, parent, free[0]).0.cr3 == parent
  {
    var frames := ForkForks(c, m, free, parent, free[0]);
    ForkKeeps(c, m, Fork(c, m, parent, free[0]).0, free, parent, frames);
  }

  lemma ForkTablesOk(c: Config, m: Mm, m': Mm, free: seq<nat>, parent: nat, frames: seq<nat>)
    requires Shape(c, m) && Shape(c, m') && TablesOk(c, m, free) && free != [] && parent < c.nr && free[0] < c.nr - 1
    requires Forked(c, m, m', parent, free[0], frames)
    ensures TablesOk(c, m', free[1..])
  {
    assert forall t :: Live(c, free[1..], t) ==> Live(c, free, t) || t == free[0];
  }

  /** Frames that a live process reaches at user addresses are in use. */
  lemma UserFrameUsed(c: Config, used: seq<bool>, t: Table, page: nat)
    requires c.Valid() && |used| == c.total && SystemPart(c, t) && UserPart(c, t) && OwnFrames(c, used, t)
    requires forall f :: CodeFrame(c, f) ==> used[f]
    requires c.kernel <= page < c.total && t[page].present
    ensures t[page].frame < c.total && used[t[page].frame]
  {
    if page < c.DataPage() {
      assert CodeFrame(c, t[page].frame);
    } else {
      assert page < c.WindowPage();
      assert t[page].frame == DataFrame(c, t, page - c.DataPage());
    }
  }

  /** A live process whose table is untouched sees the same bytes if no frame in use was written. */
  lemma ViewKept(c: Config, m: Mm, m': Mm, free: seq<nat>, t: nat, va: nat)
    requires MmOk(c, m, free) && Live(c, free, t) && va / PAGE_SIZE >= c.kernel
    requires |m'.pt| == c.nr && m'.pt[t] == m.pt[t] && |m'.mem| == c.total
    requires forall f :: 0 <= f < c.total && m.used[f] ==> m'.mem[f] == m.mem[f]
    ensures View(m', t, va) == View(m, t, va)
  {
    var page := va / PAGE_SIZE;
    if page < c.total && m.pt[t][page].present {
      UserFrameUsed(c, m.used, m.pt[t], page);
    }
  }

  /** Two full address spaces whose data frames hold the same bytes show the same bytes at every user page. */
  lemma SamePage(c: Config, mem: seq<seq<Byte>>, mem': seq<seq<Byte>>, t: Table, t': Table, page: nat)
    requires c.Valid() && |mem| == |mem'| == c.total && c.kernel <= page
    requires SystemPart(c, t) && UserPart(c, t) && SystemPart(c, t') && UserPart(c, t')
    requires forall f :: CodeFrame(c, f) ==> mem'[f] == mem[f]
    requires forall j :: 0 <= j < c.data ==> DataFrame(c, t, j) < c.total && DataFrame(c, t', j) < c.total
                                             && mem'[DataFrame(c, t', j)] == mem[DataFrame(c, t, j)]
    ensures Walk(t, page).None? <==> Walk(t', page).None?
    ensures Walk(t, page).Some? ==> Walk(t, page).value < c.total && Walk(t', page).value < c.total
                                    && mem'[Walk(t', page).value] == mem[Walk(t, page).value]
  {
    if page < c.DataPage() {
      assert CodeFrame(c, t[page].frame);
    } else if page < c.WindowPage() {
      var j := page - c.DataPage();
      assert t'[page].frame == DataFrame(c, t', j) && t[page].frame == DataFrame(c, t, j);
    }
  }

  /** Fork preserves meaning through translation: the child sees at every user address what the parent saw. */
  lemma ForkChildView(c: Config, m: Mm, m': Mm, free: seq<nat>, parent: nat, child: nat, frames: seq<nat>, va: nat)
    requires MmOk(c, m, free) && Live(c, free, parent) && child in free && child < c.nr - 1
    requires Forked(c, m, m', parent, child, frames) && va / PAGE_SIZE >= c.kernel
    ensures View(m', child, va) == View(m, parent, va)
  {
    assert forall f :: f in frames ==> !m.used[f];
    SamePage(c, m.mem, m'.mem, m.pt[parent], m'.pt[child], va / PAGE_SIZE);
  }

  /** ... and every process that was live, the parent included, sees what it saw. */
  lemma ForkOtherViews(c: Config, m: Mm, m': Mm, free: seq<nat>, parent: nat, child: nat, frames: seq<nat>, t: nat,
      va: nat)
    requires MmOk(c, m, free) && parent < c.nr && child in free && child < c.nr - 1 && Live(c, free, t)
    requires Forked(c, m, m', parent, child, frames) && va / PAGE_SIZE >= c.kernel
    ensures m'.pt[t] == m.pt[t] && View(m', t, va) == View(m, t, va)
  {
    assert forall f :: f in frames ==> !m.used[f];
    ViewKept(c, m, m', free, t, va);
  }

  /** What fork relies on in a live parent. */
  lemma ParentReady(c: Config, m: Mm, free: seq<nat>, t: nat)
    requires MmOk(c, m, free) && Live(c, free, t)
    ensures SystemPart(c, m.pt[t]) && UserPart(c, m.pt[t]) && c.kernel < c.total && m.used[c.kernel]
    ensures forall p :: 0 <= p < c.total ==> m.pt[t][p].frame < c.total
    ensures var src := FramesOf(m.pt[t], c.DataPage(), c.data);
      forall j :: 0 <= j < c.data ==> src[j] < c.total && m.used[src[j]]
  {
    assert CodeFrame(c, c.kernel);
    assert OwnFrames(c, m.used, m.pt[t]);
    forall j | 0 <= j < c.data ensures m.used[FramesOf(m.pt[t], c.DataPage(), c.data)[j]] {
      assert FramesOf(m.pt[t], c.DataPage(), c.data)[j] == DataFrame(c, m.pt[t], j);
    }
  }

  // ---------------------------------------------------------------- exit and context switch

  /** Giving up the frames of one address space, with no other change. */
  lemma DropOwner(c: Config, m: Mm, m': Mm, free: seq<nat>, t: nat)
    requires Shape(c, m) && Shape(c, m') && FramesOk(c, m, free) && Live(c, free, t) && m'.pt == m.pt
    requires forall f :: 0 <= f < c.total ==> (m'.used[f] <==> m.used[f] && !OwnedBy(c, m.pt[t], f))
    ensures FramesOk(c, m', free + [t])
  {
    var free' := free + [t];
    assert forall u :: Live(c, free', u) <==> Live(c, free, u) && u != t;
    assert OwnFrames(c, m.used, m.pt[t]);
    assert forall f :: OwnedBy(c, m.pt[t], f) ==> Slot(c, f) && !CodeFrame(c, f);
    forall u | Live(c, free', u) ensures OwnFrames(c, m'.used, m.pt[u]) {
      assert OwnFrames(c, m.used, m.pt[u]) && NoSharing(c, m.pt[t], m.pt[u]);
    }
    forall f | c.kernel <= f < c.total && m'.used[f] && !CodeFrame(c, f) ensures HasOwner(c, m'.pt, free', f) {
      var u :| Live(c, free, u) && OwnedBy(c, m.pt[u], f);
      assert Live(c, free', u) && OwnedBy(c, m'.pt[u], f);
    }
  }

  /** Exit returns the leaver's frames and touches nobody else's; its table keeps its entries. */
  lemma ExitKeeps(c: Config, m: Mm, free: seq<nat>, t: nat)
    requires MmOk(c, m, free) && Live(c, free, t)
    ensures MmOk(c, Exit(c, m, t), free + [t])
  {
    ExitFrames(c, m.used, m.pt[t]);
    LeaverKeeps(c, m, Exit(c, m, t), free, t);
  }

  lemma LeaverKeeps(c: Config, m: Mm, m': Mm, free: seq<nat>, t: nat)
    requires MmOk(c, m, free) && Live(c, free, t) && m' == m.(used := m'.used) && |m'.used| == c.total
    requires forall f :: 0 <= f < c.total ==> (m'.used[f] <==> m.used[f] && !OwnedBy(c, m.pt[t], f))
    requires FreeSlots(c, m'.used, c.kernel) == FreeSlots(c, m.used, c.kernel) + c.data
    ensures MmOk(c, m', free + [t])
  {
    assert FramesOk(c, m', free + [t]) by { DropOwner(c, m, m', free, t); }
    assert TablesOk(c, m', free + [t]) by { FewerTables(c, m, m', free, t); }
    OneMore(c.data, c.nr - 1 - |free + [t]|);
  }

  lemma FewerTables(c: Config, m: Mm, m': Mm, free: seq<nat>, t: nat)
    requires Shape(c, m) && Shape(c, m') && TablesOk(c, m, free) && m'.pt == m.pt
    ensures TablesOk(c, m', free + [t])
  {
    assert forall u :: Live(c, free + [t], u) ==> Live(c, free, u);
  }

  lemma OneMore(n: int, k: int)
    ensures n * (k + 1) == n * k + n
  {
  }

  lemma ExitFrames(c: Config, used: seq<bool>, t: Table)
    requires c.Valid() && |used| == |t| == c.total && OwnFrames(c, used, t)
    ensures var used' := FreeAll(c, used, FramesOf(t, c.DataPage(), c.data));
      && (forall f :: 0 <= f < c.total ==> (used'[f] <==> used[f] && !OwnedBy(c, t, f)))
      && FreeSlots(c, used', c.kernel) == FreeSlots(c, used, c.kernel) + c.data
  {
    var frames := FramesOf(t, c.DataPage(), c.data);
    assert CodeFrame(c, c.kernel);
    assert forall j :: 0 <= j < c.data ==> frames[j] == DataFrame(c, t, j) && frames[j] in frames;
    assert forall f :: f in frames <==> OwnedBy(c, t, f);
    FreeAllCount(c, used, frames);
  }

  lemma SwitchKeeps(c: Config, m: Mm, free: seq<nat>, dir: nat)
    requires MmOk(c, m, free) && dir < c.nr
    ensures MmOk(c, SetCr3(m, dir), free)
  {
  }

  /** Two address spaces without common data frames meet only at the same code page. */
  lemma MeetOnlyInCode(c: Config, used: seq<bool>, t: Table, u: Table, p: nat, q: nat)
    requires c.Valid() && |t| == |u| == |used| == c.total && UserPart(c, t) && UserPart(c, u)
    requires OwnFrames(c, used, t) && OwnFrames(c, used, u) && NoSharing(c, t, u)
    requires c.kernel <= p < c.WindowPage() && c.kernel <= q < c.WindowPage()
    ensures t[p].frame >= c.kernel
    ensures t[p].frame == u[q].frame <==> p == q < c.DataPage()
  {
    assert p >= c.DataPage() ==> t[p].frame == DataFrame(c, t, p - c.DataPage());
    assert q >= c.DataPage() ==> u[q].frame == DataFrame(c, u, q - c.DataPage());
    assert p < c.DataPage() ==> CodeFrame(c, t[p].frame);
    assert q < c.DataPage() ==> CodeFrame(c, u[q].frame);
  }

  /** Within one address space no two pages share a frame. */
  lemma PagesApart(c: Config, used: seq<bool>, t: Table, p: nat, q: nat)
    requires c.Valid() && |t| == |used| == c.total && UserPart(c, t) && OwnFrames(c, used, t)
    requires c.kernel <= p < c.WindowPage() && c.kernel <= q < c.WindowPage()
    ensures t[p].frame == t[q].frame <==> p == q
  {
    assert p >= c.DataPage() ==> t[p].frame == DataFrame(c, t, p - c.DataPage());
    assert q >= c.DataPage() ==> t[q].frame == DataFrame(c, t, q - c.DataPage());
    assert p < c.DataPage() ==> CodeFrame(c, t[p].frame);
    assert q < c.DataPage() ==> CodeFrame(c, t[q].frame);
  }

  // ---------------------------------------------------------------- user-mode accesses and the TLB

  /** `va` is in a user page of the running task. The kernel can store there, writable or not: CR0.WP is not set. */
  predicate Reaches(m: Mm, va: nat)
  {
    && m.cr3 < |m.pt| && va / PAGE_SIZE < |m.pt[m.cr3]|
    && var e := m.pt[m.cr3][va / PAGE_SIZE]; e.present && e.user
  }

  /** The running task itself can if the page is writable. */
  predicate CanWrite(m: Mm, va: nat)
  {
    Reaches(m, va) && m.pt[m.cr3][va / PAGE_SIZE].rw
  }

  /** A store, through whatever translation the processor has. */
  function WriteByte(m: Mm, va: nat, b: Byte): Mm
    requires Reaches(m, va)
  {
    match Translate(m, va / PAGE_SIZE)
    case None => m
    case Some(f) =>
      if f < |m.mem| && va % PAGE_SIZE < |m.mem[f]|
      then m.(mem := m.mem[f := m.mem[f][va % PAGE_SIZE := b]])
      else m
  }

  /** The processor may cache a present entry, or drop a cached one, at any time. */
  function TlbFill(m: Mm, page: nat): Mm
    requires m.cr3 < |m.pt| && Walk(m.pt[m.cr3], page).Some?
  {
    m.(tlb := m.tlb[page := Walk(m.pt[m.cr3], page).value])
  }

  function TlbEvict(m: Mm, page: nat): Mm
  {
    m.(tlb := m.tlb - {page})
  }

  lemma WriteKeeps(c: Config, m: Mm, free: seq<nat>, va: nat, b: Byte)
    requires MmOk(c, m, free) && Reaches(m, va)
    ensures MmOk(c, WriteByte(m, va, b), free)
    ensures View(WriteByte(m, va, b), m.cr3, va) == Some(b)
  {
  }

  /** The writer itself sees exactly that byte change in its user pages. */
  lemma StoreIsOneByte(c: Config, m: Mm, free: seq<nat>, va: nat, b: Byte, va': nat)
    requires MmOk(c, m, free) && Live(c, free, m.cr3) && Reaches(m, va) && c.kernel <= va / PAGE_SIZE
    requires c.kernel <= va' / PAGE_SIZE
    ensures View(WriteByte(m, va, b), m.cr3, va') == if va' == va then Some(b) else View(m, m.cr3, va')
  {
    var page, page', t := va / PAGE_SIZE, va' / PAGE_SIZE, m.pt[m.cr3];
    assert SystemPart(c, t) && UserPart(c, t);
    assert Translate(m, page) == Some(t[page].frame);
    assert page < c.WindowPage();
    if page' < c.WindowPage() {
      PagesApart(c, m.used, t, page, page');
    }
    assert va == page * PAGE_SIZE + va % PAGE_SIZE && va' == page' * PAGE_SIZE + va' % PAGE_SIZE;
    WriteKeeps(c, m, free, va, b);
  }

  /** The invariant says nothing about the bytes, and any coherent TLB will do. */
  lemma BytesKeep(c: Config, m: Mm, free: seq<nat>, mem: seq<seq<Byte>>, tlb: map<nat, nat>)
    requires MmOk(c, m, free) && |mem| == |m.mem| && forall f :: 0 <= f < |mem| ==> |mem[f]| == |m.mem[f]|
    requires TlbCoherent(m.(tlb := tlb))
    ensures MmOk(c, m.(mem := mem, tlb := tlb), free)
  {
  }

  lemma TlbKeeps(c: Config, m: Mm, free: seq<nat>, page: nat)
    requires MmOk(c, m, free)
    ensures MmOk(c, TlbEvict(m, page), free)
    ensures Walk(m.pt[m.cr3], page).Some? ==> MmOk(c, TlbFill(m, page), free)
  {
  }

  /** Isolation of stores: a store to a data page is invisible to every other live process. */
  lemma DataStoreIsPrivate(c: Config, m: Mm, free: seq<nat>, va: nat, b: Byte, t: nat, va': nat)
    requires MmOk(c, m, free) && Live(c, free, m.cr3) && Reaches(m, va) && va / PAGE_SIZE >= c.DataPage()
    requires Live(c, free, t) && t != m.cr3 && va' / PAGE_SIZE >= c.kernel
    ensures View(WriteByte(m, va, b), t, va') == View(m, t, va')
  {
    var page, page' := va / PAGE_SIZE, va' / PAGE_SIZE;
    assert SystemPart(c, m.pt[m.cr3]) && SystemPart(c, m.pt[t]);
    assert Translate(m, page) == Some(m.pt[m.cr3][page].frame);
    if page' < c.WindowPage() {
      MeetOnlyInCode(c, m.used, m.pt[m.cr3], m.pt[t], page, page');
    }
  }

  /** A store to a code page is seen by every live process. */
  lemma CodeStoreIsPublic(c: Config, m: Mm, free: seq<nat>, va: nat, b: Byte, t: nat)
    requires MmOk(c, m, free) && Live(c, free, m.cr3) && Reaches(m, va) && c.kernel <= va / PAGE_SIZE < c.DataPage()
    requires Live(c, free, t)
    ensures View(WriteByte(m, va, b), t, va) == Some(b)
  {
  }

  // ---------------------------------------------------------------- boot

  /** set_user_pages: code pages read-only, data pages writable, on the first frames. */
  function InitTable(c: Config, frames: seq<nat>): (t: Table)
    requires c.Valid() && |frames| == c.code + c.data
    ensures |t| == c.total
    ensures forall p :: 0 <= p < c.total ==>
              t[p] == (if c.kernel <= p < c.DataPage() then Pte(frames[p - c.kernel] % 0x10_0000, true, false, true)
                       else if c.DataPage() <= p < c.WindowPage() then UserPage(frames[p - c.kernel])
                       else InitialTable(c)[p])
  {
    seq(c.total, p requires 0 <= p < c.total =>
      if c.kernel <= p < c.DataPage() then Pte(frames[p - c.kernel] % 0x10_0000, true, false, true)
      else if c.DataPage() <= p < c.WindowPage() then UserPage(frames[p - c.kernel])
      else InitialTable(c)[p])
  }

  /** set_user_pages after `i` pages, on the frames it gets at boot. */
  function PartTable(c: Config, i: nat): (t: Table)
    requires c.Valid() && i <= c.code + c.data
    ensures |t| == c.total
    ensures forall p :: 0 <= p < c.total ==>
              t[p] == (if c.kernel <= p < c.kernel + i
                       then Pte((c.kernel + 2 * (p - c.kernel)) % 0x10_0000, true, p >= c.DataPage(), true)
                       else InitialTable(c)[p])
  {
    seq(c.total, p requires 0 <= p < c.total =>
      if c.kernel <= p < c.kernel + i then Pte((c.kernel + 2 * (p - c.kernel)) % 0x10_0000, true, p >= c.DataPage(),
          true)
      else InitialTable(c)[p])
  }

  lemma PartTableSteps(c: Config, i: nat)
    requires c.Valid() && i < c.code + c.data
    ensures PartTable(c, 0) == InitialTable(c)
    ensures PartTable(c, i + 1) == PartTable(c, i)[c.kernel + i :=
      Pte((c.kernel + 2 * i) % 0x10_0000, true, i >= c.code, true)]
  {
  }

  lemma PartTableEnds(c: Config, frames: seq<nat>)
    requires c.Valid() && |frames| == c.code + c.data && forall i :: 0 <= i < |frames| ==> frames[i] == c.kernel + 2 * i
    ensures PartTable(c, c.code + c.data) == InitTable(c, frames)
  {
  }

  /** Memory after init_mm, init_idle and init_task1, on whatever bytes memory held. */
  function Boot(c: Config, mem: seq<seq<Byte>>): Mm
    requires c.Valid() && |AllocFrames(c, InitialFrames(c), c.code + c.data).frames| == c.code + c.data
  {
    var a := AllocFrames(c, InitialFrames(c), c.code + c.data);
    Mm(a.used, BootTables(c, a.frames), mem, c.Init(), map[])
  }

  function BootTables(c: Config, frames: seq<nat>): (pt: seq<Table>)
    requires c.Valid() && |frames| == c.code + c.data
    ensures |pt| == c.nr
    ensures forall t :: 0 <= t < c.nr ==> pt[t] == if t == c.Init() then InitTable(c, frames) else InitialTable(c)
  {
    seq(c.nr, t => if t == c.Init() then InitTable(c, frames) else InitialTable(c))
  }

  /** The frame map of a machine where only the kernel and the first `code + data` slots are taken. */
  ghost predicate FirstSlotsTaken(c: Config, used: seq<bool>, frames: seq<nat>)
  {
    && |used| == c.total && |frames| == c.code + c.data
    && (forall i :: 0 <= i < |frames| ==> frames[i] == c.kernel + 2 * i)
    && (forall f :: 0 <= f < c.total ==> used[f] == (f < c.kernel || f in frames))
  }

  lemma InitTableOk(c: Config, used: seq<bool>, frames: seq<nat>)
    requires c.Valid() && FirstSlotsTaken(c, used, frames)
    ensures var t := InitTable(c, frames);
      && SystemPart(c, t) && UserPart(c, t)
      && (forall p :: 0 <= p < c.total ==> t[p].frame < c.total)
      && (forall j :: 0 <= j < c.data ==> DataFrame(c, t, j) == c.kernel + 2 * (c.code + j))
  {
  }

  lemma InitFramesOk(c: Config, used: seq<bool>, frames: seq<nat>, t: Table)
    requires c.Valid() && FirstSlotsTaken(c, used, frames) && |t| == c.total
    requires forall j :: 0 <= j < c.data ==> DataFrame(c, t, j) == c.kernel + 2 * (c.code + j)
    ensures OwnFrames(c, used, t)
    ensures forall f :: 0 <= f < c.kernel || CodeFrame(c, f) ==> used[f]
    ensures forall f :: c.kernel <= f < c.total && used[f] ==> CodeFrame(c, f) || OwnedBy(c, t, f)
  {
    forall f | CodeFrame(c, f) ensures used[f] {
      assert frames[(f - c.kernel) / 2] == f;
    }
    forall j | 0 <= j < c.data ensures used[DataFrame(c, t, j)] && Slot(c, DataFrame(c, t, j)) {
      assert frames[c.code + j] == DataFrame(c, t, j);
    }
    forall f | c.kernel <= f < c.total && used[f] && !CodeFrame(c, f) ensures OwnedBy(c, t, f) {
      var i :| 0 <= i < |frames| && frames[i] == f;
      assert DataFrame(c, t, i - c.code) == f;
    }
  }

  lemma BootFrames(c: Config)
    requires c.Valid()
    ensures var a := AllocFrames(c, InitialFrames(c), c.code + c.data);
      FirstSlotsTaken(c, a.used, a.frames) && FreeSlots(c, a.used, c.kernel) == c.Slots() - c.code - c.data
  {
    AllocFromBoot(c, c.code + c.data);
    BootUsed(c, c.code + c.data);
  }

  /** One live process, the initial one. */
  lemma SingleOwner(c: Config, m: Mm, free: seq<nat>, frames: seq<nat>)
    requires Shape(c, m) && FirstSlotsTaken(c, m.used, frames)
    requires forall t :: Live(c, free, t) <==> t == c.Init()
    requires m.pt[c.Init()] == InitTable(c, frames)
    ensures FramesOk(c, m, free)
  {
    InitTableOk(c, m.used, frames);
    InitFramesOk(c, m.used, frames, m.pt[c.Init()]);
    assert Live(c, free, c.Init());
  }

  lemma BootShape(c: Config, mem: seq<seq<Byte>>)
    requires c.Valid() && |mem| == c.total && forall f :: 0 <= f < c.total ==> |mem[f]| == PAGE_SIZE
    ensures |AllocFrames(c, InitialFrames(c), c.code + c.data).frames| == c.code + c.data
    ensures Shape(c, Boot(c, mem))
    ensures Boot(c, mem).pt[c.Init()] == InitTable(c, AllocFrames(c, InitialFrames(c), c.code + c.data).frames)
    ensures forall t :: 0 <= t < c.nr && t != c.Init() ==> Boot(c, mem).pt[t] == InitialTable(c)
  {
    BootFrames(c);
    var a := AllocFrames(c, InitialFrames(c), c.code + c.data);
    LoadedShape(c, mem, a.used, a.frames);
    assert Boot(c, mem) == Mm(a.used, BootTables(c, a.frames), mem, c.Init(), map[]);
  }

  lemma LoadedShape(c: Config, mem: seq<seq<Byte>>, used: seq<bool>, frames: seq<nat>)
    requires c.Valid() && |mem| == c.total && forall f :: 0 <= f < c.total ==> |mem[f]| == PAGE_SIZE
    requires FirstSlotsTaken(c, used, frames)
    ensures var m := Mm(used, BootTables(c, frames), mem, c.Init(), map[]);
      && Shape(c, m) && m.pt[c.Init()] == InitTable(c, frames)
      && forall t :: 0 <= t < c.nr && t != c.Init() ==> m.pt[t] == InitialTable(c)
  {
    BootTablesShape(c, used, frames);
  }

  lemma BootTablesShape(c: Config, used: seq<bool>, frames: seq<nat>)
    requires c.Valid() && FirstSlotsTaken(c, used, frames)
    ensures forall t, p :: 0 <= t < c.nr && 0 <= p < c.total ==> BootTables(c, frames)[t][p].frame < c.total
  {
    InitTableOk(c, used, frames);
  }

  /** Memory is in order when the kernel enters user mode. */
  lemma BootOk(c: Config, mem: seq<seq<Byte>>, free: seq<nat>)
    requires c.Valid() && |mem| == c.total && forall f :: 0 <= f < c.total ==> |mem[f]| == PAGE_SIZE
    requires |free| == c.nr - 2 && forall t :: 0 <= t < c.nr - 2 <==> t in free
    ensures |AllocFrames(c, InitialFrames(c), c.code + c.data).frames| == c.code + c.data
    ensures MmOk(c, Boot(c, mem), free)
  {
    BootShape(c, mem);
    BootFrames(c);
    var a := AllocFrames(c, InitialFrames(c), c.code + c.data);
    LoadedOk(c, mem, a.used, a.frames, free);
    assert Boot(c, mem) == Mm(a.used, BootTables(c, a.frames), mem, c.Init(), map[]);
  }

  lemma LoadedOk(c: Config, mem: seq<seq<Byte>>, used: seq<bool>, frames: seq<nat>, free: seq<nat>)
    requires c.Valid() && |mem| == c.total && forall f :: 0 <= f < c.total ==> |mem[f]| == PAGE_SIZE
    requires |free| == c.nr - 2 && forall t :: 0 <= t < c.nr - 2 <==> t in free
    requires FirstSlotsTaken(c, used, frames) && FreeSlots(c, used, c.kernel) == c.Slots() - c.code - c.data
    ensures MmOk(c, Mm(used, BootTables(c, frames), mem, c.Init(), map[]), free)
  {
    var m := Mm(used, BootTables(c, frames), mem, c.Init(), map[]);
    LoadedShape(c, mem, used, frames);
    SingleOwner(c, m, free, frames);
    InitTableOk(c, used, frames);
    OneMore(c.data, 0);
  }
}
