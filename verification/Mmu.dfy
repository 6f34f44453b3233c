/** Memory on the heap: page tables and frames as arrays, accesses through the TLB, and the copy loops of utils.c. */
module Mmu {
  import opened Params
  import opened Memory
  import opened Frames

  // ---------------------------------------------------------------- bytes through a table

  /** Frame contents: memory as a value. */
  type Contents = seq<seq<Byte>>

  /** Where each mapped virtual address lives: a frame and an offset. */
  type Places = imap<nat, (nat, nat)>

  ghost function PlacesOf(t: Table): Places
  {
    imap va: nat | va / PAGE_SIZE < |t| && t[va / PAGE_SIZE].present :: (t[va / PAGE_SIZE].frame, va % PAGE_SIZE)
  }

  /** `p` is where the table puts things, address by address. */
  ghost predicate Gives(t: Table, p: Places)
  {
    forall va: nat :: Agrees(t, p, va)
  }

  ghost predicate Agrees(t: Table, p: Places, va: nat)
  {
    var page := va / PAGE_SIZE;
    && (va in p <==> page < |t| && t[page].present)
    && (va in p ==> p[va] == (t[page].frame, va % PAGE_SIZE))
  }

  lemma PlacesAgree(t: Table)
    ensures Gives(t, PlacesOf(t))
  {
  }

  /** `va` is mapped to existing memory. */
  ghost predicate MappedAt(t: Places, mem: Contents, va: nat)
  {
    va in t && t[va].0 < |mem| && t[va].1 < |mem[t[va].0]|
  }

  ghost predicate Mapped(t: Places, mem: Contents, va: nat, n: nat)
  {
    forall v :: va <= v < va + n ==> MappedAt(t, mem, v)
  }

  ghost function Load(t: Places, mem: Contents, va: nat): Byte
    requires MappedAt(t, mem, va)
  {
    mem[t[va].0][t[va].1]
  }

  ghost function Store(t: Places, mem: Contents, va: nat, b: Byte): (r: Contents)
    requires MappedAt(t, mem, va)
    ensures |r| == |mem| && forall f :: 0 <= f < |mem| ==> |r[f]| == |mem[f]|
  {
    mem[t[va].0 := mem[t[va].0][t[va].1 := b]]
  }

  lemma StoreLoad(t: Places, mem: Contents, va: nat, b: Byte, va': nat)
    requires MappedAt(t, mem, va) && MappedAt(t, mem, va')
    ensures MappedAt(t, Store(t, mem, va, b), va')
    ensures Load(t, Store(t, mem, va, b), va') == if t[va] == t[va'] then b else Load(t, mem, va')
  {
  }

  /** The reference: n bytes copied one at a time, upwards. */
  ghost function CopyBytes(t: Places, mem: Contents, start: nat, dest: nat, n: nat): (r: Contents)
    requires Mapped(t, mem, start, n) && Mapped(t, mem, dest, n)
    ensures |r| == |mem| && forall f :: 0 <= f < |mem| ==> |r[f]| == |mem[f]|
  {
    if n == 0 then mem
    else
      var m := CopyBytes(t, mem, start, dest, n - 1);
      assert MappedAt(t, mem, start + n - 1) && MappedAt(t, mem, dest + n - 1);
      Store(t, m, dest + n - 1, Load(t, m, start + n - 1))
  }

  /** The two addresses are different bytes of memory. */
  ghost predicate Apart(t: Places, v: nat, w: nat)
  {
    v in t && w in t ==> t[v] != t[w]
  }

  /** Source and destination share no byte of memory. */
  ghost predicate Separate(t: Places, start: nat, dest: nat, n: nat)
  {
    forall v, w :: start <= v < start + n && dest <= w < dest + n ==> Apart(t, v, w)
  }

  /** No two destination addresses are the same byte. */
  ghost predicate OneToOne(t: Places, dest: nat, n: nat)
  {
    forall v, w :: dest <= v < w < dest + n ==> Apart(t, v, w)
  }

  ghost predicate Outside(t: Places, dest: nat, n: nat, f: nat, o: nat)
  {
    forall v :: dest <= v < dest + n && v in t ==> t[v] != (f, o)
  }

  /** While the copy runs, the source keeps its bytes. */
  lemma {:induction false} SourceKept(t: Places, mem: Contents, start: nat, dest: nat, n: nat, m: nat, v: nat)
    requires m <= n && Mapped(t, mem, start, n) && Mapped(t, mem, dest, n) && Separate(t, start, dest, n)
    requires start <= v < start + n
    ensures MappedAt(t, CopyBytes(t, mem, start, dest, m), v)
    ensures Load(t, CopyBytes(t, mem, start, dest, m), v) == Load(t, mem, v)
  {
    if m > 0 {
      SourceKept(t, mem, start, dest, n, m - 1, v);
      var before, w := CopyBytes(t, mem, start, dest, m - 1), dest + m - 1;
      assert MappedAt(t, mem, w) && MappedAt(t, mem, start + m - 1) && Apart(t, v, w);
      StoreLoad(t, before, w, Load(t, before, start + m - 1), v);
    }
  }

  /** One more byte. */
  lemma CopyOneMore(t: Places, mem: Contents, start: nat, dest: nat, m: nat)
    requires CanCopy(t, mem, start, dest, m + 1)
    ensures MappedAt(t, mem, start + m) && MappedAt(t, CopyBytes(t, mem, start, dest, m), dest + m)
    ensures CopyBytes(t, mem, start, dest, m + 1)
         == Store(t, CopyBytes(t, mem, start, dest, m), dest + m, Load(t, mem, start + m))
  {
    assert MappedAt(t, mem, start + m) && MappedAt(t, mem, dest + m);
    SourceKept(t, mem, start, dest, m + 1, m, start + m);
  }

  /** The destination holds the source. */
  lemma {:induction false} CopiedAt(t: Places, mem: Contents, start: nat, dest: nat, n: nat, i: nat)
    requires CanCopy(t, mem, start, dest, n) && OneToOne(t, dest, n) && i < n
    ensures MappedAt(t, CopyBytes(t, mem, start, dest, n), dest + i) && MappedAt(t, mem, start + i)
    ensures Load(t, CopyBytes(t, mem, start, dest, n), dest + i) == Load(t, mem, start + i)
  {
    var m := n - 1;
    var before := CopyBytes(t, mem, start, dest, m);
    CopyOneMore(t, mem, start, dest, m);
    assert MappedAt(t, mem, dest + i);
    if i < m {
      CopiedAt(t, mem, start, dest, m, i);
      assert Apart(t, dest + i, dest + m);
    }
    StoreLoad(t, before, dest + m, Load(t, mem, start + m), dest + i);
  }

  /** Everything else is as it was. */
  lemma {:induction false} KeptOutside(t: Places, mem: Contents, start: nat, dest: nat, n: nat, f: nat, o: nat)
    requires Mapped(t, mem, start, n) && Mapped(t, mem, dest, n)
    requires f < |mem| && o < |mem[f]| && Outside(t, dest, n, f, o)
    ensures CopyBytes(t, mem, start, dest, n)[f][o] == mem[f][o]
  {
    if n > 0 {
      KeptOutside(t, mem, start, dest, n - 1, f, o);
      assert MappedAt(t, mem, dest + n - 1) && MappedAt(t, mem, start + n - 1) && t[dest + n - 1] != (f, o);
    }
  }

  /** What is mapped does not depend on the bytes. */
  lemma MappedKept(t: Places, mem: Contents, mem': Contents, va: nat, n: nat)
    requires Mapped(t, mem, va, n) && |mem'| == |mem| && forall f :: 0 <= f < |mem| ==> |mem'[f]| == |mem[f]|
    ensures Mapped(t, mem', va, n)
  {
    forall v | va <= v < va + n ensures MappedAt(t, mem', v) {
      assert MappedAt(t, mem, v);
    }
  }

  /** A copy of n bytes from start to dest makes sense: both ranges are there and they do not meet. */
  ghost predicate CanCopy(t: Places, mem: Contents, start: nat, dest: nat, n: nat)
  {
    Mapped(t, mem, start, n) && Mapped(t, mem, dest, n) && Separate(t, start, dest, n)
  }

  /** A word loaded at p while the copy runs is a word of the original source. */
  lemma WordOfSource(t: Places, mem: Contents, now: Contents, start: nat, dest: nat, n: nat, p: nat, w: seq<Byte>)
    requires CanCopy(t, mem, start, dest, n) && start <= p && p - start + 4 <= n && |w| == 4
    requires now == CopyBytes(t, mem, start, dest, p - start)
    requires forall v :: p <= v < p + 4 ==> MappedAt(t, now, v) && w[v - p] == Load(t, now, v)
    ensures forall v :: p <= v < p + 4 ==> MappedAt(t, mem, v) && w[v - p] == Load(t, mem, v)
  {
    forall v | p <= v < p + 4 ensures MappedAt(t, mem, v) && w[v - p] == Load(t, mem, v) {
      SourceKept(t, mem, start, dest, n, p - start, v);
      assert w[v - p] == Load(t, now, v);
    }
  }

  /** One of the k bytes after `done` is out of reach on one side. */
  ghost predicate StuckAt(t: Places, mem: Contents, start: nat, dest: nat, n: nat, done: nat, k: nat)
  {
    done + k <= n && !(Mapped(t, mem, start + done, k) && Mapped(t, mem, dest + done, k))
  }

  /** The copy cannot get past `done`: one of the next four bytes is out of reach on one side. */
  ghost predicate FaultsAt(t: Places, mem: Contents, start: nat, dest: nat, n: nat, done: nat)
  {
    exists k :: 1 <= k <= 4 && StuckAt(t, mem, start, dest, n, done, k)
  }

  lemma FaultStops(t: Places, mem: Contents, start: nat, dest: nat, n: nat, done: nat)
    requires FaultsAt(t, mem, start, dest, n, done)
    ensures !CanCopy(t, mem, start, dest, n)
  {
    var k :| 1 <= k <= 4 && StuckAt(t, mem, start, dest, n, done, k);
    PartMapped(t, mem, start, n, done, k);
    PartMapped(t, mem, dest, n, done, k);
  }

  lemma PartMapped(t: Places, mem: Contents, va: nat, n: nat, done: nat, k: nat)
    requires done + k <= n
    ensures Mapped(t, mem, va, n) ==> Mapped(t, mem, va + done, k)
  {
  }

  lemma OneMoreMapped(t: Places, mem: Contents, va: nat, n: nat)
    ensures Mapped(t, mem, va, n + 1) <==> Mapped(t, mem, va, n) && MappedAt(t, mem, va + n)
  {
    if Mapped(t, mem, va, n) && MappedAt(t, mem, va + n) {
      assert forall v :: va <= v < va + n + 1 ==> v == va + n || MappedAt(t, mem, v);
    }
  }

  /** What is reachable does not depend on the bytes. */
  lemma SameMapped(t: Places, mem: Contents, mem': Contents, va: nat, n: nat)
    requires |mem'| == |mem| && forall f :: 0 <= f < |mem| ==> |mem'[f]| == |mem[f]|
    ensures Mapped(t, mem, va, n) <==> Mapped(t, mem', va, n)
  {
    if Mapped(t, mem, va, n) { MappedKept(t, mem, mem', va, n); }
    if Mapped(t, mem', va, n) { MappedKept(t, mem', mem, va, n); }
  }

  /** A copy that can be continued by n bytes. */
  lemma LongerCopy(t: Places, mem: Contents, start: nat, dest: nat, size: nat, done: nat, n: nat)
    requires Mapped(t, mem, start, done) && Mapped(t, mem, dest, done) && Separate(t, start, dest, size)
      && done + n <= size
    requires Mapped(t, mem, start + done, n) && Mapped(t, mem, dest + done, n)
    ensures CanCopy(t, mem, start, dest, done + n)
  {
    forall v | start <= v < start + done + n ensures MappedAt(t, mem, v) {
      assert v < start + done || (start + done <= v < start + done + n);
    }
    forall v | dest <= v < dest + done + n ensures MappedAt(t, mem, v) {
      assert v < dest + done || (dest + done <= v < dest + done + n);
    }
  }

  /** How many bytes a size argument asks for. */
  function Count(size: int): nat
  {
    if size < 0 then 0 else size
  }

  // ---------------------------------------------------------------- bytes from outside

  /** Memory after the given bytes were stored from va on. */
  ghost function StoreBytes(t: Places, mem: Contents, va: nat, bytes: seq<Byte>): (r: Contents)
    requires Mapped(t, mem, va, |bytes|)
    ensures |r| == |mem| && forall f :: 0 <= f < |mem| ==> |r[f]| == |mem[f]|
  {
    if bytes == [] then mem
    else
      var n := |bytes| - 1;
      var m := StoreBytes(t, mem, va, bytes[..n]);
      assert MappedAt(t, mem, va + n);
      Store(t, m, va + n, bytes[n])
  }

  lemma {:induction false} StoredAt(t: Places, mem: Contents, va: nat, bytes: seq<Byte>, i: nat)
    requires Mapped(t, mem, va, |bytes|) && OneToOne(t, va, |bytes|) && i < |bytes|
    ensures MappedAt(t, StoreBytes(t, mem, va, bytes), va + i)
    ensures Load(t, StoreBytes(t, mem, va, bytes), va + i) == bytes[i]
  {
    var n := |bytes| - 1;
    var before := StoreBytes(t, mem, va, bytes[..n]);
    assert MappedAt(t, mem, va + i) && MappedAt(t, mem, va + n);
    if i < n {
      StoredAt(t, mem, va, bytes[..n], i);
      assert Apart(t, va + i, va + n);
    }
    StoreLoad(t, before, va + n, bytes[n], va + i);
  }

  lemma {:induction false} StoredElsewhere(t: Places, mem: Contents, va: nat, bytes: seq<Byte>, f: nat, o: nat)
    requires Mapped(t, mem, va, |bytes|) && f < |mem| && o < |mem[f]| && Outside(t, va, |bytes|, f, o)
    ensures StoreBytes(t, mem, va, bytes)[f][o] == mem[f][o]
  {
    if bytes != [] {
      var n := |bytes| - 1;
      StoredElsewhere(t, mem, va, bytes[..n], f, o);
      assert MappedAt(t, mem, va + n) && t[va + n] != (f, o);
    }
  }

  /** No byte of memory differs but those of the n addresses from va on. */
  ghost predicate SameOutside(t: Places, before: Contents, now: Contents, va: nat, n: nat)
  {
    && |now| == |before| && (forall f :: 0 <= f < |before| ==> |now[f]| == |before[f]|)
    && forall f, o :: 0 <= f < |before| && 0 <= o < |before[f]| && Outside(t, va, n, f, o) ==> now[f][o] == before[f][o]
  }

  lemma StoredOutside(t: Places, mem: Contents, va: nat, bytes: seq<Byte>, done: nat)
    requires done <= |bytes| && Mapped(t, mem, va, done)
    ensures SameOutside(t, mem, StoreBytes(t, mem, va, bytes[..done]), va, |bytes|)
  {
    var r := StoreBytes(t, mem, va, bytes[..done]);
    forall f, o | 0 <= f < |mem| && 0 <= o < |mem[f]| && Outside(t, va, |bytes|, f, o) ensures r[f][o] == mem[f][o] {
      assert Outside(t, va, done, f, o);
      StoredElsewhere(t, mem, va, bytes[..done], f, o);
    }
  }

  /** In a full address space a user address is in reach exactly if it lies below the end of the data pages. */
  lemma UserAddress(c: Config, tab: Table, p: Places, mem: Contents, va: nat)
    requires c.Valid() && SystemPart(c, tab) && UserPart(c, tab) && Gives(tab, p) && WholeFrames(mem)
      && |mem| == c.total
    requires (forall q :: 0 <= q < c.total ==> tab[q].frame < c.total) && c.kernel * PAGE_SIZE <= va
    ensures MappedAt(p, mem, va) <==> va < c.WindowPage() * PAGE_SIZE
    ensures MappedAt(p, mem, va) ==> p[va] == (tab[va / PAGE_SIZE].frame, va % PAGE_SIZE)
  {
    assert Agrees(tab, p, va);
    var page := va / PAGE_SIZE;
    assert va < c.WindowPage() * PAGE_SIZE <==> page < c.WindowPage();
  }

  /** ... and so is a record, whose addresses are then different bytes of memory. */
  lemma UserRecord(c: Config, used: seq<bool>, tab: Table, p: Places, mem: Contents, va: nat, n: nat)
    requires c.Valid() && SystemPart(c, tab) && UserPart(c, tab) && Gives(tab, p) && WholeFrames(mem)
      && |mem| == c.total
    requires (forall q :: 0 <= q < c.total ==> tab[q].frame < c.total) && |used| == c.total && OwnFrames(c, used, tab)
    requires c.kernel * PAGE_SIZE <= va && n > 0
    ensures Mapped(p, mem, va, n) <==> va + n <= c.WindowPage() * PAGE_SIZE
    ensures Mapped(p, mem, va, n) ==> OneToOne(p, va, n)
  {
    UserAddress(c, tab, p, mem, va + n - 1);
    if va + n <= c.WindowPage() * PAGE_SIZE {
      forall v | va <= v < va + n ensures MappedAt(p, mem, v) {
        UserAddress(c, tab, p, mem, v);
      }
      forall v, w | va <= v < w < va + n ensures Apart(p, v, w) {
        UserAddress(c, tab, p, mem, v);
        UserAddress(c, tab, p, mem, w);
        PagesApart(c, used, tab, v / PAGE_SIZE, w / PAGE_SIZE);
      }
    } else {
      assert !MappedAt(p, mem, va + n - 1);
    }
  }

  /** What a process reads at an address is the byte in reach there. */
  lemma ViewIsLoad(m: Mm, t: nat, p: Places, va: nat)
    requires t < |m.pt| && Gives(m.pt[t], p) && MappedAt(p, m.mem, va)
    ensures View(m, t, va) == Some(Load(p, m.mem, va))
  {
    assert Agrees(m.pt[t], p, va);
  }

  // ---------------------------------------------------------------- the window of fork

  lemma MapOneMore(t: Table, page: nat, frames: seq<nat>, i: nat)
    requires page + |frames| <= |t| && i < |frames|
    ensures MapPages(t, page, frames[..i + 1]) == MapPages(t, page, frames[..i])[page + i := UserPage(frames[i])]
  {
  }

  lemma UnmapOneMore(t: Table, page: nat, i: nat)
    requires page + i < |t|
    ensures UnmapPages(t, page, i + 1) == UnmapPages(t, page, i)[page + i := NO_PAGE]
  {
  }

  lemma UnmapForgetsMap(t: Table, page: nat, frames: seq<nat>)
    requires page + |frames| <= |t|
    ensures UnmapPages(MapPages(t, page, frames), page, |frames|) == UnmapPages(t, page, |frames|)
  {
  }

  /** `n` consecutive pages of table t from `page` on are mapped to `frames`. */
  ghost predicate Block(t: Table, page: nat, frames: seq<nat>, total: nat)
  {
    && page + |frames| <= |t|
    && forall j :: 0 <= j < |frames| ==> t[page + j].present && t[page + j].frame == frames[j] && frames[j] < total
  }

  /** Address k bytes into a block of pages. */
  lemma BlockPlace(t: Table, p: Places, page: nat, frames: seq<nat>, total: nat, v: nat)
    requires Gives(t, p) && Block(t, page, frames, total) && page * PAGE_SIZE <= v < (page + |frames|) * PAGE_SIZE
    ensures v in p && p[v] == (frames[v / PAGE_SIZE - page], v % PAGE_SIZE)
  {
    assert Agrees(t, p, v);
    assert t[page + (v / PAGE_SIZE - page)].frame == frames[v / PAGE_SIZE - page];
  }

  ghost predicate WholeFrames(mem: Contents)
  {
    forall f :: 0 <= f < |mem| ==> |mem[f]| == PAGE_SIZE
  }

  /** The two frame lists have no frame in common. */
  ghost predicate NoCommon(src: seq<nat>, dst: seq<nat>)
  {
    forall i, j :: 0 <= i < |src| && 0 <= j < |dst| ==> src[i] != dst[j]
  }

  lemma BlockMapped(t: Table, p: Places, page: nat, frames: seq<nat>, mem: Contents)
    requires Gives(t, p) && Block(t, page, frames, |mem|) && WholeFrames(mem)
    ensures Mapped(p, mem, page * PAGE_SIZE, |frames| * PAGE_SIZE)
  {
    forall v | page * PAGE_SIZE <= v < page * PAGE_SIZE + |frames| * PAGE_SIZE ensures MappedAt(p, mem, v) {
      BlockPlace(t, p, page, frames, |mem|, v);
    }
  }

  lemma BlocksCanCopy(t: Table, p: Places, from: nat, src: seq<nat>, to: nat, dst: seq<nat>, mem: Contents)
    requires Gives(t, p) && |src| == |dst| && WholeFrames(mem)
    requires Block(t, from, src, |mem|) && Block(t, to, dst, |mem|) && NoCommon(src, dst) && Distinct(dst)
    ensures CanCopy(p, mem, from * PAGE_SIZE, to * PAGE_SIZE, |src| * PAGE_SIZE)
    ensures OneToOne(p, to * PAGE_SIZE, |src| * PAGE_SIZE)
  {
    BlockMapped(t, p, from, src, mem);
    BlockMapped(t, p, to, dst, mem);
    var n := |src| * PAGE_SIZE;
    forall v, w | from * PAGE_SIZE <= v < from * PAGE_SIZE + n
        && to * PAGE_SIZE <= w < to * PAGE_SIZE + n ensures Apart(p, v, w) {
      BlockPlace(t, p, from, src, |mem|, v);
      BlockPlace(t, p, to, dst, |mem|, w);
    }
    forall v, w | to * PAGE_SIZE <= v < w < to * PAGE_SIZE + n ensures Apart(p, v, w) {
      BlockPlace(t, p, to, dst, |mem|, v);
      BlockPlace(t, p, to, dst, |mem|, w);
    }
  }

  /** One byte of the copied block. */
  lemma CopiedByte(t: Table, p: Places, from: nat, src: seq<nat>, to: nat, dst: seq<nat>, mem: Contents, j: nat, o: nat)
    requires Gives(t, p) && |src| == |dst| && WholeFrames(mem)
    requires Block(t, from, src, |mem|) && Block(t, to, dst, |mem|) && NoCommon(src, dst) && Distinct(dst)
    requires j < |src| && o < PAGE_SIZE
    requires CanCopy(p, mem, from * PAGE_SIZE, to * PAGE_SIZE, |src| * PAGE_SIZE)
    ensures CopyBytes(p, mem, from * PAGE_SIZE, to * PAGE_SIZE, |src| * PAGE_SIZE)[dst[j]][o] == mem[src[j]][o]
  {
    var start, dest, n, i := from * PAGE_SIZE, to * PAGE_SIZE, |src| * PAGE_SIZE, j * PAGE_SIZE + o;
    BlocksCanCopy(t, p, from, src, to, dst, mem);
    BlockPlace(t, p, from, src, |mem|, start + i);
    BlockPlace(t, p, to, dst, |mem|, dest + i);
    CopiedAt(p, mem, start, dest, n, i);
  }

  /** Copying a block of pages through translation copies whole frames. */
  lemma BlockCopyIsFrameCopy(t: Table, p: Places, from: nat, src: seq<nat>, to: nat, dst: seq<nat>, mem: Contents)
    requires Gives(t, p) && |src| == |dst| && WholeFrames(mem)
    requires Block(t, from, src, |mem|) && Block(t, to, dst, |mem|) && NoCommon(src, dst) && Distinct(dst)
    ensures CanCopy(p, mem, from * PAGE_SIZE, to * PAGE_SIZE, |src| * PAGE_SIZE)
    ensures CopyBytes(p, mem, from * PAGE_SIZE, to * PAGE_SIZE, |src| * PAGE_SIZE) == CopyFrames(mem, src, dst)
  {
    BlocksCanCopy(t, p, from, src, to, dst, mem);
    CopyFramesAt(mem, src, dst);
    var r := CopyBytes(p, mem, from * PAGE_SIZE, to * PAGE_SIZE, |src| * PAGE_SIZE);
    forall f | 0 <= f < |mem| ensures r[f] == CopyFrames(mem, src, dst)[f] {
      FrameCopied(t, p, from, src, to, dst, mem, f);
    }
  }

  lemma FrameCopied(t: Table, p: Places, from: nat, src: seq<nat>, to: nat, dst: seq<nat>, mem: Contents, f: nat)
    requires Gives(t, p) && |src| == |dst| && WholeFrames(mem) && f < |mem|
    requires Block(t, from, src, |mem|) && Block(t, to, dst, |mem|) && NoCommon(src, dst) && Distinct(dst)
    requires CanCopy(p, mem, from * PAGE_SIZE, to * PAGE_SIZE, |src| * PAGE_SIZE)
    ensures CopyBytes(p, mem, from * PAGE_SIZE, to * PAGE_SIZE, |src| * PAGE_SIZE)[f] == CopyFrames(mem, src, dst)[f]
  {
    var start, dest, n := from * PAGE_SIZE, to * PAGE_SIZE, |src| * PAGE_SIZE;
    var r := CopyBytes(p, mem, start, dest, n);
    CopyFramesAt(mem, src, dst);
    forall o | 0 <= o < PAGE_SIZE ensures r[f][o] == CopyFrames(mem, src, dst)[f][o] {
      if f in dst {
        var j :| 0 <= j < |dst| && dst[j] == f;
        CopiedByte(t, p, from, src, to, dst, mem, j, o);
      } else {
        forall v | dest <= v < dest + n && v in p ensures p[v] != (f, o) {
          BlockPlace(t, p, to, dst, |mem|, v);
        }
        KeptOutside(p, mem, start, dest, n, f, o);
      }
    }
  }

  /** While the window is mapped, the parent's table has its data in one block and the child's frames in the next. */
  lemma WindowBlocks(c: Config, t: Table, src: seq<nat>, frames: seq<nat>)
    requires c.Valid() && SystemPart(c, t) && UserPart(c, t) && |frames| == c.data
    requires src == FramesOf(t, c.DataPage(), c.data) && AllBelow(src, c.total) && AllBelow(frames, c.total)
    ensures Block(MapPages(t, c.WindowPage(), frames), c.DataPage(), src, c.total)
    ensures Block(MapPages(t, c.WindowPage(), frames), c.WindowPage(), frames, c.total)
  {
    var t' := MapPages(t, c.WindowPage(), frames);
    forall j | 0 <= j < c.data ensures t'[c.DataPage() + j].present && t'[c.DataPage() + j].frame == src[j] {
      assert t'[c.DataPage() + j] == t[c.DataPage() + j];
    }
    forall j | 0 <= j < c.data ensures t'[c.WindowPage() + j] == UserPage(frames[j]) {
    }
  }

  ghost predicate AllBelow(frames: seq<nat>, total: nat)
  {
    forall j :: 0 <= j < |frames| ==> frames[j] < total
  }

  /** Mapping pages that were not present cannot make a cached translation stale. */
  lemma WindowKeepsCoherence(c: Config, t: Table, frames: seq<nat>, tlb: map<nat, nat>)
    requires c.Valid() && SystemPart(c, t) && |frames| == c.data
    requires forall p :: p in tlb ==> Walk(t, p) == Some(tlb[p])
    ensures forall p :: p in tlb ==> Walk(MapPages(t, c.WindowPage(), frames), p) == Some(tlb[p])
  {
  }

  // ---------------------------------------------------------------- the heap

  /** The hardware's memory: pagusr_table, the frames, CR3 and the TLB. The ghost fields are the arrays as values. */
  class Memories {
    const pt: array2<Pte>
    const mem: array2<Byte>
    var cr3: nat
    var tlb: map<nat, nat>
    ghost var tables: seq<Table>
    ghost var contents: Contents

    /** Zeroed tables over a memory that holds whatever it holds. */
    constructor (nr: nat, total: nat, mem: array2<Byte>, ghost bytes: Contents)
      requires mem.Length0 == |bytes| && mem.Length1 == PAGE_SIZE && WholeFrames(bytes) && nr > 0
      requires forall f, o :: 0 <= f < |bytes| && 0 <= o < PAGE_SIZE ==> mem[f, o] == bytes[f][o]
      ensures Valid() && pt.Length0 == nr && pt.Length1 == total && this.mem == mem && contents == bytes && fresh(pt)
    {
      pt := new Pte[nr, total]((t, p) => NO_PAGE);
      this.mem := mem;
      cr3, tlb := 0, map[];
      tables := seq(nr, _ => seq(total, _ => NO_PAGE));
      contents := bytes;
    }

    ghost predicate Valid()
      reads this, pt, mem
    {
      && pt as object != mem as object
      && |tables| == pt.Length0 && |contents| == mem.Length0 && mem.Length1 == PAGE_SIZE
      && (forall t :: 0 <= t < pt.Length0 ==> |tables[t]| == pt.Length1)
      && (forall f :: 0 <= f < mem.Length0 ==> |contents[f]| == PAGE_SIZE)
      && (forall t, p :: 0 <= t < pt.Length0 && 0 <= p < pt.Length1 ==> EntryTied(t, p))
      && (forall f, o :: 0 <= f < mem.Length0 && 0 <= o < PAGE_SIZE ==> ByteTied(f, o))
      && cr3 < pt.Length0
    }

    ghost predicate EntryTied(t: nat, p: nat)
      reads this`tables, pt
    {
      t < pt.Length0 && t < |tables| && p < pt.Length1 && p < |tables[t]| && pt[t, p] == tables[t][p]
    }

    ghost predicate ByteTied(f: nat, o: nat)
      reads this`contents, mem
    {
      f < mem.Length0 && f < |contents| && o < mem.Length1 && o < |contents[f]| && mem[f, o] == contents[f][o]
    }

    /** Every cached translation is what the installed table says. */
    ghost predicate Coherent()
      reads this
    {
      cr3 < |tables| && forall p :: p in tlb ==> Walk(tables[cr3], p) == Some(tlb[p])
    }

    /** Writes one table entry. */
    method SetEntry(t: nat, page: nat, e: Pte)
      requires Valid() && t < pt.Length0 && page < pt.Length1
      modifies pt, this`tables
      ensures Valid() && tables == old(tables)[t := old(tables)[t][page := e]]
    {
      pt[t, page] := e;
      tables := tables[t := tables[t][page := e]];
      forall u, p | 0 <= u < pt.Length0 && 0 <= p < pt.Length1 ensures EntryTied(u, p) {
        assert old(EntryTied(u, p));
      }
    }

    /** set_ss_pag */
    method SetSsPag(t: nat, page: nat, frame: nat)
      requires Valid() && t < pt.Length0 && page < pt.Length1
      modifies pt, this`tables
      ensures Valid() && tables == old(tables)[t := old(tables)[t][page := UserPage(frame)]]
    {
      SetEntry(t, page, Pte(frame % 0x10_0000, true, true, true));
    }

    /** del_ss_pag */
    method DelSsPag(t: nat, page: nat)
      requires Valid() && t < pt.Length0 && page < pt.Length1
      modifies pt, this`tables
      ensures Valid() && tables == old(tables)[t := old(tables)[t][page := NO_PAGE]]
    {
      SetEntry(t, page, NO_PAGE);
    }

    /** get_frame */
    method GetFrame(t: nat, page: nat) returns (frame: nat)
      requires Valid() && t < pt.Length0 && page < pt.Length1
      ensures frame == tables[t][page].frame
    {
      assert EntryTied(t, page);
      frame := pt[t, page].frame;
    }

    /** set_cr3 */
    method SetCr3(dir: nat)
      requires Valid() && dir < pt.Length0
      modifies this`cr3, this`tlb
      ensures Valid() && cr3 == dir && tlb == map[] && Coherent()
    {
      cr3 := dir;
      tlb := map[];
    }

    /** The processor's translation of a mapped page. It uses a cached entry if it has one; it may cache what it walked
        and may forget any entry. */
    method Translate(page: nat) returns (frame: nat)
      requires Valid() && Coherent() && page < pt.Length1 && tables[cr3][page].present
      modifies this`tlb
      ensures Coherent() && frame == tables[cr3][page].frame
    {
      assert EntryTied(cr3, page);
      if page in tlb {
        frame := tlb[page];
      } else {
        frame := pt[cr3, page].frame;
        tlb := tlb[page := frame];
      }
      var victim: nat := *;
      if * {
        tlb := tlb - {victim};
      }
    }

    method LoadByte(va: nat, ghost t: Places) returns (b: Byte)
      requires Valid() && Coherent() && Gives(tables[cr3], t) && MappedAt(t, contents, va)
      modifies this`tlb
      ensures Valid() && Coherent() && b == Load(t, contents, va)
    {
      assert Agrees(tables[cr3], t, va);
      var f := Translate(va / PAGE_SIZE);
      assert ByteTied(f, va % PAGE_SIZE);
      b := mem[f, va % PAGE_SIZE];
    }

    method StoreByte(va: nat, b: Byte, ghost t: Places)
      requires Valid() && Coherent() && Gives(tables[cr3], t) && MappedAt(t, contents, va)
      modifies this`tlb, this`contents, mem
      ensures Valid() && Coherent() && contents == Store(t, old(contents), va, b)
    {
      assert Agrees(tables[cr3], t, va);
      var f := Translate(va / PAGE_SIZE);
      mem[f, va % PAGE_SIZE] := b;
      contents := Store(t, contents, va, b);
      forall g, o | 0 <= g < mem.Length0 && 0 <= o < PAGE_SIZE ensures ByteTied(g, o) {
        assert old(ByteTied(g, o));
      }
    }

    /** *p, a 32-bit load. */
    method LoadWord(va: nat, ghost t: Places) returns (w: seq<Byte>)
      requires Valid() && Coherent() && Gives(tables[cr3], t) && Mapped(t, contents, va, 4)
      modifies this`tlb
      ensures Valid() && Coherent() && |w| == 4
      ensures forall v :: va <= v < va + 4 ==> MappedAt(t, contents, v) && w[v - va] == Load(t, contents, v)
    {
      w := [];
      while |w| < 4
        invariant Valid() && Coherent() && |w| <= 4
        invariant forall v :: va <= v < va + |w| ==> MappedAt(t, contents, v) && w[v - va] == Load(t, contents, v)
      {
        var b := LoadByte(va + |w|, t);
        w := w + [b];
      }
    }

    /** `done` bytes of the copy have been made. */
    ghost predicate Copying(t: Places, before: Contents, start: nat, dest: nat, n: nat, done: nat)
      reads this, pt, mem
      requires CanCopy(t, before, start, dest, n)
    {
      Valid() && Coherent() && Gives(tables[cr3], t) && done <= n && contents == CopyBytes(t, before, start, dest, done)
    }

    /** Storing the next byte of the source at the next place of the destination. */
    method StoreNext(q: nat, b: Byte, ghost t: Places, ghost before: Contents, ghost start: nat, ghost dest: nat,
        ghost n: nat, ghost done: nat)
      requires CanCopy(t, before, start, dest, n) && Copying(t, before, start, dest, n, done) && done < n
        && q == dest + done
      requires MappedAt(t, before, start + done) && b == Load(t, before, start + done)
      modifies this`tlb, this`contents, mem
      ensures Copying(t, before, start, dest, n, done + 1)
    {
      CopyOneMore(t, before, start, dest, done);
      StoreByte(q, b, t);
    }

    /** *q++ = *p++ on words: the four bytes are loaded before the first is stored. */
    method CopyWord(p: nat, q: nat, ghost t: Places, ghost before: Contents, ghost start: nat, ghost dest: nat,
        ghost n: nat, ghost done: nat)
      requires CanCopy(t, before, start, dest, n) && Copying(t, before, start, dest, n, done) && done + 4 <= n
      requires p == start + done && q == dest + done
      modifies this`tlb, this`contents, mem
      ensures Copying(t, before, start, dest, n, done + 4)
    {
      var w := LoadSource(p, t, before, start, dest, n, done);
      StoreFour(q, w, p, t, before, start, dest, n, done);
    }

    /** The next word of the source, untouched by the copy so far. */
    method LoadSource(p: nat, ghost t: Places, ghost before: Contents, ghost start: nat, ghost dest: nat, ghost n: nat,
        ghost done: nat) returns (w: seq<Byte>)
      requires CanCopy(t, before, start, dest, n) && Copying(t, before, start, dest, n, done) && done + 4 <= n
        && p == start + done
      modifies this`tlb
      ensures Copying(t, before, start, dest, n, done) && |w| == 4
      ensures forall v :: p <= v < p + 4 ==> MappedAt(t, before, v) && w[v - p] == Load(t, before, v)
    {
      ghost var now := contents;
      MappedKept(t, before, now, start, n);
      w := LoadWord(p, t);
      WordOfSource(t, before, now, start, dest, n, p, w);
    }

    /** *q = w, the next word of the source. */
    method StoreFour(q: nat, w: seq<Byte>, ghost p: nat, ghost t: Places, ghost before: Contents, ghost start: nat,
        ghost dest: nat, ghost n: nat, ghost done: nat)
      requires CanCopy(t, before, start, dest, n) && Copying(t, before, start, dest, n, done) && done + 4 <= n
      requires q == dest + done && p == start + done && |w| == 4
      requires forall v :: p <= v < p + 4 ==> MappedAt(t, before, v) && w[v - p] == Load(t, before, v)
      modifies this`tlb, this`contents, mem
      ensures Copying(t, before, start, dest, n, done + 4)
    {
      assert w[0] == Load(t, before, p) && w[1] == Load(t, before, p + 1);
      assert w[2] == Load(t, before, p + 2) && w[3] == Load(t, before, p + 3);
      StoreNext(q, w[0], t, before, start, dest, n, done);
      StoreNext(q + 1, w[1], t, before, start, dest, n, done + 1);
      StoreNext(q + 2, w[2], t, before, start, dest, n, done + 2);
      StoreNext(q + 3, w[3], t, before, start, dest, n, done + 3);
    }

    /** *q1++ = *p1++ on bytes. */
    method CopyByte(p: nat, q: nat, ghost t: Places, ghost before: Contents, ghost start: nat, ghost dest: nat,
        ghost n: nat, ghost done: nat)
      requires CanCopy(t, before, start, dest, n) && Copying(t, before, start, dest, n, done) && done < n
      requires p == start + done && q == dest + done
      modifies this`tlb, this`contents, mem
      ensures Copying(t, before, start, dest, n, done + 1)
    {
      SourceKept(t, before, start, dest, n, done, p);
      assert MappedAt(t, before, p);
      var b := LoadByte(p, t);
      StoreNext(q, b, t, before, start, dest, n, done);
    }

    /** Whether the byte at va is out of reach: an access to it faults. */
    method Faults(va: nat, ghost t: Places) returns (fault: bool)
      requires Valid() && Gives(tables[cr3], t)
      ensures fault <==> !MappedAt(t, contents, va)
    {
      var page := va / PAGE_SIZE;
      assert Agrees(tables[cr3], t, va);
      fault := true;
      if page < pt.Length1 {
        assert EntryTied(cr3, page);
        fault := !pt[cr3, page].present || pt[cr3, page].frame >= mem.Length0;
      }
    }

    /** Whether copying n bytes, at most four, from p to q faults; a faulting access stores nothing. */
    method CopyFaults(p: nat, q: nat, n: nat, ghost t: Places) returns (fault: bool)
      requires Valid() && Gives(tables[cr3], t)
      ensures fault <==> !(Mapped(t, contents, p, n) && Mapped(t, contents, q, n))
    {
      fault := false;
      for i := 0 to n
        invariant fault <==> !(Mapped(t, contents, p, i) && Mapped(t, contents, q, i))
      {
        var fp := Faults(p + i, t);
        var fq := Faults(q + i, t);
        OneMoreMapped(t, contents, p, i);
        OneMoreMapped(t, contents, q, i);
        fault := fault || fp || fq;
      }
    }

    /** The copy has made `done` bytes. */
    ghost predicate CopiedSoFar(t: Places, before: Contents, start: nat, dest: nat, done: nat)
      reads this, pt, mem
    {
      && Valid() && Coherent() && Gives(tables[cr3], t)
      && Mapped(t, before, start, done) && Mapped(t, before, dest, done)
      && contents == CopyBytes(t, before, start, dest, done)
    }

    /** Whether the next n bytes of the copy can be made, and that the copy is then well defined that far. */
    method CanGoOn(p: nat, q: nat, n: nat, ghost t: Places, ghost before: Contents, ghost start: nat, ghost dest: nat,
                   ghost size: nat, ghost done: nat) returns (ok: bool)
      requires CopiedSoFar(t, before, start, dest, done) && Separate(t, start, dest, size)
      requires done + n <= size && p == start + done && q == dest + done
      ensures ok <==> Mapped(t, before, p, n) && Mapped(t, before, q, n)
      ensures ok ==> CanCopy(t, before, start, dest, done + n)
    {
      var fault := CopyFaults(p, q, n, t);
      SameMapped(t, before, contents, p, n);
      SameMapped(t, before, contents, q, n);
      ok := !fault;
      if ok { LongerCopy(t, before, start, dest, size, done, n); }
    }

    /** One access pair of the copy, unless it faults: four bytes ... */
    method TryWord(p: nat, q: nat, ghost t: Places, ghost before: Contents, ghost start: nat, ghost dest: nat,
                   ghost size: nat, ghost done: nat) returns (ok: bool)
      requires CopiedSoFar(t, before, start, dest, done) && Separate(t, start, dest, size)
      requires done + 4 <= size && p == start + done && q == dest + done
      modifies this`tlb, this`contents, mem
      ensures if ok then CopiedSoFar(t, before, start, dest, done + 4)
              else StuckAt(t, before, start, dest, size, done, 4) && CopiedSoFar(t, before, start, dest, done)
    {
      ok := CanGoOn(p, q, 4, t, before, start, dest, size, done);
      if ok { CopyWord(p, q, t, before, start, dest, done + 4, done); }
    }

    /** ... or one. */
    method TryByte(p: nat, q: nat, ghost t: Places, ghost before: Contents, ghost start: nat, ghost dest: nat,
                   ghost size: nat, ghost done: nat) returns (ok: bool)
      requires CopiedSoFar(t, before, start, dest, done) && Separate(t, start, dest, size)
      requires done + 1 <= size && p == start + done && q == dest + done
      modifies this`tlb, this`contents, mem
      ensures if ok then CopiedSoFar(t, before, start, dest, done + 1)
              else StuckAt(t, before, start, dest, size, done, 1) && CopiedSoFar(t, before, start, dest, done)
    {
      ok := CanGoOn(p, q, 1, t, before, start, dest, size, done);
      if ok { CopyByte(p, q, t, before, start, dest, done + 1, done); }
    }

    /** The word loop: it stops with at most four bytes left, or at a fault. */
    method CopyWords(start: nat, dest: nat, size: int, ghost t: Places) returns (ok: bool, copied: nat)
      requires Valid() && Coherent() && Gives(tables[cr3], t) && Separate(t, start, dest, Count(size))
      modifies this`tlb, this`contents, mem
      ensures CopiedSoFar(t, old(contents), start, dest, copied) && copied <= Count(size)
      ensures if ok then size - copied <= 4 else FaultsAt(t, old(contents), start, dest, Count(size), copied)
    {
      ghost var before, n := contents, Count(size);
      var p, q, left: int := start, dest, size;
      copied, ok := 0, true;
      while left > 4 && ok
        invariant copied <= n && left == size - copied && p == start + copied && q == dest + copied
        invariant CopiedSoFar(t, before, start, dest, copied)
        invariant !ok ==> StuckAt(t, before, start, dest, n, copied, 4)
        decreases left, ok
      {
        ok := TryWord(p, q, t, before, start, dest, n, copied);
        if ok {
          p, q, left, copied := p + 4, q + 4, left - 4, copied + 4;
        }
      }
    }

    /** The byte loop, after `copied` bytes. */
    method CopyRest(start: nat, dest: nat, size: int, copied: nat, ghost t: Places, ghost before: Contents)
        returns (ok: bool, ghost done: nat)
      requires CopiedSoFar(t, before, start, dest, copied) && copied <= Count(size)
        && Separate(t, start, dest, Count(size))
      modifies this`tlb, this`contents, mem
      ensures CopiedSoFar(t, before, start, dest, done) && done <= Count(size)
      ensures if ok then done == Count(size) else FaultsAt(t, before, start, dest, Count(size), done)
    {
      ghost var n := Count(size);
      var p, q, left: int := start + copied, dest + copied, size - copied;
      done, ok := copied, true;
      while left > 0 && ok
        invariant done <= n && left == size - done && p == start + done && q == dest + done
        invariant CopiedSoFar(t, before, start, dest, done)
        invariant !ok ==> StuckAt(t, before, start, dest, n, done, 1)
        decreases left, ok
      {
        ok := TryByte(p, q, t, before, start, dest, n, done);
        if ok {
          p, q, left, done := p + 1, q + 1, left - 1, done + 1;
        }
      }
    }

    /** copy_data, copy_from_user and copy_to_user: words while more than four bytes are left, then bytes. For every
        size and through whatever translations are installed it does what a byte-by-byte copy does, and it stops with a
        page fault exactly if one of the bytes is out of reach -- `done` bytes copied, the fault within the next
        four. */
    method CopyData(start: nat, dest: nat, size: int, ghost t: Places) returns (ok: bool, ghost done: nat)
      requires Valid() && Coherent() && Gives(tables[cr3], t) && Separate(t, start, dest, Count(size))
      modifies this`tlb, this`contents, mem
      ensures CopiedSoFar(t, old(contents), start, dest, done) && done <= Count(size)
      ensures ok <==> CanCopy(t, old(contents), start, dest, Count(size))
      ensures if ok then done == Count(size) else FaultsAt(t, old(contents), start, dest, Count(size), done)
    {
      ghost var before := contents;
      var copied;
      ok, copied := CopyWords(start, dest, size, t);
      done := copied;
      if ok {
        ok, done := CopyRest(start, dest, size, copied, t, before);
      }
      if !ok { FaultStops(t, before, start, dest, Count(size), done); }
    }

    /** `done` of the bytes have been stored. */
    ghost predicate Storing(t: Places, before: Contents, va: nat, bytes: seq<Byte>, done: nat)
      reads this, pt, mem
    {
      && Valid() && Coherent() && Gives(tables[cr3], t) && done <= |bytes|
      && Mapped(t, before, va, done) && contents == StoreBytes(t, before, va, bytes[..done])
    }

    /** The next n bytes, unless the access faults. */
    method StoreSome(va: nat, bytes: seq<Byte>, n: nat, ghost t: Places, ghost before: Contents, done: nat)
        returns (ok: bool)
      requires Storing(t, before, va, bytes, done) && done + n <= |bytes|
      modifies this`tlb, this`contents, mem
      ensures ok <==> Mapped(t, before, va + done, n)
      ensures Storing(t, before, va, bytes, if ok then done + n else done)
    {
      var fault := CopyFaults(va + done, va + done, n, t);
      SameMapped(t, before, contents, va + done, n);
      ok := !fault;
      if ok {
        StoreReachable(va, bytes, n, t, before, done);
      }
    }

    method StoreReachable(va: nat, bytes: seq<Byte>, n: nat, ghost t: Places, ghost before: Contents, done: nat)
      requires Storing(t, before, va, bytes, done) && done + n <= |bytes| && Mapped(t, before, va + done, n)
      modifies this`tlb, this`contents, mem
      ensures Storing(t, before, va, bytes, done + n)
    {
      for i := 0 to n
        invariant Storing(t, before, va, bytes, done + i)
      {
        assert MappedAt(t, before, va + done + i);
        StoreNextByte(va, bytes, t, before, done + i);
      }
    }

    method StoreNextByte(va: nat, bytes: seq<Byte>, ghost t: Places, ghost before: Contents, done: nat)
      requires Storing(t, before, va, bytes, done) && done < |bytes| && MappedAt(t, before, va + done)
      modifies this`tlb, this`contents, mem
      ensures Storing(t, before, va, bytes, done + 1)
    {
      OneMoreMapped(t, before, va, done);
      assert bytes[..done + 1][..done] == bytes[..done];
      StoreByte(va + done, bytes[done], t);
    }

    /** copy_to_user from a structure of the kernel, whose bytes are given: words while more than four bytes are left,
        then bytes. It faults exactly if one of the destination bytes is out of reach, with those before stored. */
    method CopyOut(bytes: seq<Byte>, va: nat, ghost t: Places) returns (ok: bool, ghost done: nat)
      requires Valid() && Coherent() && Gives(tables[cr3], t)
      modifies this`tlb, this`contents, mem
      ensures Storing(t, old(contents), va, bytes, done)
      ensures ok <==> Mapped(t, old(contents), va, |bytes|)
      ensures ok ==> done == |bytes|
    {
      ghost var before := contents;
      var i := 0;
      ok := true;
      while |bytes| - i > 4 && ok
        invariant 0 <= i <= |bytes| && Storing(t, before, va, bytes, i)
        invariant !ok ==> i + 4 <= |bytes| && !Mapped(t, before, va + i, 4)
        decreases |bytes| - i, ok
      {
        ok := StoreSome(va, bytes, 4, t, before, i);
        i := if ok then i + 4 else i;
      }
      if !ok { PartMapped(t, before, va, |bytes|, i, 4); }
      while |bytes| - i > 0 && ok
        invariant 0 <= i <= |bytes| && Storing(t, before, va, bytes, i)
        invariant !ok ==> !Mapped(t, before, va, |bytes|)
        decreases |bytes| - i, ok
      {
        ok := StoreSome(va, bytes, 1, t, before, i);
        if !ok { PartMapped(t, before, va, |bytes|, i, 1); }
        i := if ok then i + 1 else i;
      }
      done := i;
    }

    /** sys_fork's first loop: the child maps the parent's code frames. */
    method ShareCode(parent: nat, child: nat, page: nat, n: nat)
      requires Valid() && parent < pt.Length0 && child < pt.Length0 && parent != child && page + n <= pt.Length1
      modifies pt, this`tables
      ensures Valid()
      ensures tables == old(tables)[child := MapPages(old(tables)[child], page, FramesOf(old(tables)[parent], page, n))]
    {
      ghost var frames := FramesOf(tables[parent], page, n);
      assert MapPages(tables[child], page, frames[..0]) == tables[child];
      for i := 0 to n
        invariant Valid() && tables == old(tables)[child := MapPages(old(tables)[child], page, frames[..i])]
      {
        MapOneMore(old(tables)[child], page, frames, i);
        var f := GetFrame(parent, page + i);
        SetSsPag(child, page + i, f);
      }
      assert frames[..n] == frames;
    }

    /** sys_fork's mapping loop: each new frame goes into the parent's window and into the child's data. */
    method MapChild(parent: nat, window: nat, child: nat, page: nat, frames: seq<nat>)
      requires Valid() && parent < pt.Length0 && child < pt.Length0 && parent != child
      requires window + |frames| <= pt.Length1 && page + |frames| <= pt.Length1
      modifies pt, this`tables
      ensures Valid()
      ensures tables == old(tables)[parent := MapPages(old(tables)[parent], window, frames)][child :=
        MapPages(old(tables)[child], page, frames)]
    {
      ghost var tp, tc := tables[parent], tables[child];
      assert MapPages(tp, window, frames[..0]) == tp && MapPages(tc, page, frames[..0]) == tc;
      for i := 0 to |frames|
        invariant Valid()
        invariant tables == old(tables)[parent := MapPages(tp, window, frames[..i])][child :=
          MapPages(tc, page, frames[..i])]
      {
        MapOneMore(tp, window, frames, i);
        MapOneMore(tc, page, frames, i);
        SetSsPag(parent, window + i, frames[i]);
        SetSsPag(child, page + i, frames[i]);
      }
      assert frames[..|frames|] == frames;
    }

    /** sys_fork's last loop: the window is unmapped. */
    method UnmapWindow(t: nat, page: nat, n: nat)
      requires Valid() && t < pt.Length0 && page + n <= pt.Length1
      modifies pt, this`tables
      ensures Valid() && tables == old(tables)[t := UnmapPages(old(tables)[t], page, n)]
    {
      assert UnmapPages(tables[t], page, 0) == tables[t];
      for i := 0 to n
        invariant Valid() && tables == old(tables)[t := UnmapPages(old(tables)[t], page, i)]
      {
        UnmapOneMore(old(tables)[t], page, i);
        DelSsPag(t, page + i);
      }
    }

    /** The copy itself, while the window of table `tp` shows `frames`. */
    method CopyThroughWindow(c: Config, ghost tp: Table, ghost frames: seq<nat>, ghost src: seq<nat>)
      requires Valid() && Coherent() && c.Valid() && mem.Length0 == c.total
      requires SystemPart(c, tp) && UserPart(c, tp) && |frames| == c.data
        && tables[cr3] == MapPages(tp, c.WindowPage(), frames)
      requires src == FramesOf(tp, c.DataPage(), c.data) && AllBelow(src, c.total) && AllBelow(frames, c.total)
      requires NoCommon(src, frames) && Distinct(frames)
      modifies this`tlb, this`contents, mem
      ensures Valid() && Coherent() && contents == CopyFrames(old(contents), src, frames)
    {
      ghost var t := tables[cr3];
      ghost var p := PlacesOf(t);
      WindowBlocks(c, tp, src, frames);
      PlacesAgree(t);
      BlockCopyIsFrameCopy(t, p, c.DataPage(), src, c.WindowPage(), frames, contents);
      var ok, done := CopyData(c.DataPage() * PAGE_SIZE, c.WindowPage() * PAGE_SIZE, c.data * PAGE_SIZE, p);
      assert ok;
    }

    /** The heart of sys_fork: map the child's frames into the parent's window and the child's table, copy through
        translation, unmap, flush. Every access of the copy meets a coherent TLB; only between the unmapping and the
        flush may it hold stale entries, and there nothing is accessed. */
    method CopyAddressSpace(c: Config, parent: nat, child: nat, frames: seq<nat>, ghost src: seq<nat>)
      requires Valid() && Coherent() && c.Valid() && pt.Length0 == c.nr && pt.Length1 == c.total == mem.Length0
      requires cr3 == parent < c.nr && child < c.nr && parent != child
      requires SystemPart(c, tables[parent]) && UserPart(c, tables[parent]) && |frames| == c.data
      requires src == FramesOf(tables[parent], c.DataPage(), c.data) && AllBelow(src, c.total)
        && AllBelow(frames, c.total)
      requires NoCommon(src, frames) && Distinct(frames)
      modifies this, pt, mem
      ensures Valid() && Coherent() && cr3 == parent && tlb == map[]
      ensures tables == old(tables)[parent := UnmapPages(old(tables)[parent], c.WindowPage(), c.data)]
                                   [child := MapPages(old(tables)[child], c.DataPage(), frames)]
      ensures contents == CopyFrames(old(contents), src, frames)
    {
      ghost var tp := tables[parent];
      MapChild(parent, c.WindowPage(), child, c.DataPage(), frames);
      WindowKeepsCoherence(c, tp, frames, tlb);
      CopyThroughWindow(c, tp, frames, src);
      UnmapForgetsMap(tp, c.WindowPage(), frames);
      UnmapWindow(parent, c.WindowPage(), c.data);
      SetCr3(parent);
    }

    /** init_table_pages, one table: cleared, then the kernel mapped onto itself. */
    method InitTable(c: Config, t: nat)
      requires Valid() && t < pt.Length0 && pt.Length1 == c.total && c.kernel <= c.total
      modifies pt, this`tables
      ensures Valid() && tables == old(tables)[t := InitialTable(c)]
    {
      for p := 0 to c.total
        invariant Valid() && tables == old(tables)[t := tables[t]]
        invariant forall q :: 0 <= q < p ==> tables[t][q] == NO_PAGE
      {
        SetEntry(t, p, NO_PAGE);
      }
      if c.kernel > 1 {
        for p := 1 to c.kernel
          invariant Valid() && tables == old(tables)[t := tables[t]]
          invariant forall q :: 0 <= q < c.total ==> tables[t][q] == if 1 <= q < p then Pte(q, true, true, false)
            else NO_PAGE
        {
          SetEntry(t, p, Pte(p, true, true, false));
        }
      }
      assert tables[t] == InitialTable(c);
    }

    /** init_table_pages */
    method InitTablePages(c: Config)
      requires Valid() && pt.Length0 == c.nr && pt.Length1 == c.total && c.kernel <= c.total
      modifies pt, this`tables
      ensures Valid() && tables == seq(c.nr, _ => InitialTable(c))
    {
      for t := 0 to c.nr
        invariant Valid() && forall u :: 0 <= u < t ==> tables[u] == InitialTable(c)
      {
        InitTable(c, t);
      }
    }
  }
}
