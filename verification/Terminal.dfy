/** sys_write: the chunked copy through a kernel buffer, and the console as what has been printed on it. */
module Terminal {
  import opened Params
  import opened Memory
  import opened Mmu

  const MAX_WRITE := 128

  /** The n bytes from va on. */
  ghost function BytesAt(t: Places, mem: Contents, va: nat, n: nat): (r: seq<Byte>)
    requires Mapped(t, mem, va, n)
    ensures |r| == n
    ensures forall i :: 0 <= i < n ==> MappedAt(t, mem, va + i) && r[i] == Load(t, mem, va + i)
  {
    if n == 0 then []
    else
      assert MappedAt(t, mem, va + n - 1);
      BytesAt(t, mem, va, n - 1) + [Load(t, mem, va + n - 1)]
  }

  lemma BytesSplit(t: Places, mem: Contents, va: nat, m: nat, n: nat)
    requires Mapped(t, mem, va, m + n)
    ensures Mapped(t, mem, va + m, n) && BytesAt(t, mem, va, m + n) == BytesAt(t, mem, va, m)
      + BytesAt(t, mem, va + m, n)
  {
    var all, low, high := BytesAt(t, mem, va, m + n), BytesAt(t, mem, va, m), BytesAt(t, mem, va + m, n);
    forall i | 0 <= i < m + n ensures all[i] == (low + high)[i] {
      if i >= m {
        assert high[i - m] == Load(t, mem, va + m + (i - m));
      }
    }
  }

  /** The copy in the kernel buffer reads like the user's. */
  lemma BytesCopied(t: Places, mem: Contents, start: nat, dest: nat, n: nat)
    requires CanCopy(t, mem, start, dest, n) && OneToOne(t, dest, n)
    ensures var r := CopyBytes(t, mem, start, dest, n);
      Mapped(t, r, dest, n) && BytesAt(t, r, dest, n) == BytesAt(t, mem, start, n)
  {
    var r := CopyBytes(t, mem, start, dest, n);
    MappedKept(t, mem, r, dest, n);
    forall i | 0 <= i < n ensures BytesAt(t, r, dest, n)[i] == BytesAt(t, mem, start, n)[i] {
      CopiedAt(t, mem, start, dest, n, i);
    }
  }

  /** `now` differs from `before` only in bytes that the buffer [k, k + n) or the buffer [l, l + n) occupies. */
  ghost predicate SameBut(t: Places, before: Contents, now: Contents, k: nat, l: nat, n: nat)
  {
    && |now| == |before| && (forall f :: 0 <= f < |before| ==> |now[f]| == |before[f]|)
    && forall f, o :: 0 <= f < |before| && 0 <= o < |before[f]| ==> KeptAt(t, before, now, k, l, n, f, o)
  }

  ghost predicate KeptAt(t: Places, before: Contents, now: Contents, k: nat, l: nat, n: nat, f: nat, o: nat)
  {
    && f < |before| && f < |now| && o < |before[f]| && o < |now[f]|
    && (Outside(t, k, n, f, o) && Outside(t, l, n, f, o) ==> now[f][o] == before[f][o])
  }

  lemma CopyIsSameBut(t: Places, before: Contents, now: Contents, start: nat, dest: nat, m: nat, k: nat, l: nat, n: nat)
    requires SameBut(t, before, now, k, l, n) && (dest == k || dest == l) && m <= n
    requires Mapped(t, now, start, m) && Mapped(t, now, dest, m)
    ensures SameBut(t, before, CopyBytes(t, now, start, dest, m), k, l, n)
  {
    var r := CopyBytes(t, now, start, dest, m);
    forall f, o | 0 <= f < |before| && 0 <= o < |before[f]| ensures KeptAt(t, before, r, k, l, n, f, o) {
      assert KeptAt(t, before, now, k, l, n, f, o);
      if Outside(t, k, n, f, o) && Outside(t, l, n, f, o) {
        assert Outside(t, dest, m, f, o);
        KeptOutside(t, now, start, dest, m, f, o);
      }
    }
  }

  /** A range that meets neither buffer keeps its bytes. */
  lemma BytesKept(t: Places, before: Contents, now: Contents, k: nat, l: nat, n: nat, va: nat, m: nat)
    requires SameBut(t, before, now, k, l, n) && Mapped(t, before, va, m)
    requires Clear(t, va, m, k, n) && Clear(t, va, m, l, n)
    ensures Mapped(t, now, va, m) && BytesAt(t, now, va, m) == BytesAt(t, before, va, m)
  {
    MappedKept(t, before, now, va, m);
    forall i | 0 <= i < m ensures BytesAt(t, now, va, m)[i] == BytesAt(t, before, va, m)[i] {
      var v := va + i;
      assert MappedAt(t, before, v) && KeptAt(t, before, now, k, l, n, t[v].0, t[v].1);
      assert Outside(t, k, n, t[v].0, t[v].1) by {
        forall w | k <= w < k + n && w in t ensures t[w] != (t[v].0, t[v].1) { assert Apart(t, v, w); }
      }
      assert Outside(t, l, n, t[v].0, t[v].1) by {
        forall w | l <= w < l + n && w in t ensures t[w] != (t[v].0, t[v].1) { assert Apart(t, v, w); }
      }
    }
  }

  /** [va, va + m) and [k, k + n) share no byte of memory. */
  ghost predicate Clear(t: Places, va: nat, m: nat, k: nat, n: nat)
  {
    forall v, w :: va <= v < va + m && k <= w < k + n ==> Apart(t, v, w)
  }

  /** A usable kernel buffer of MAX_WRITE bytes at k, apart from the user's `n` bytes at va. */
  ghost predicate BufferFor(t: Places, mem: Contents, k: nat, va: nat, n: nat)
  {
    Mapped(t, mem, k, MAX_WRITE) && OneToOne(t, k, MAX_WRITE) && Clear(t, va, n, k, MAX_WRITE)
  }

  /** The chunk after the first `written` bytes is not all in reach. */
  ghost predicate LastChunk(t: Places, mem: Contents, buffer: nat, size: nat, written: nat)
  {
    && written % MAX_WRITE == 0 && written <= size && Mapped(t, mem, buffer, written)
    && !Mapped(t, mem, buffer + written, if size - written >= MAX_WRITE then MAX_WRITE else size - written)
  }

  lemma NotAll(t: Places, mem: Contents, buffer: nat, size: nat, written: nat)
    requires LastChunk(t, mem, buffer, size, written)
    ensures !Mapped(t, mem, buffer, size)
  {
    PartMapped(t, mem, buffer, size, written, if size - written >= MAX_WRITE then MAX_WRITE else size - written);
  }

  lemma JoinMapped(t: Places, mem: Contents, va: nat, m: nat, n: nat)
    requires Mapped(t, mem, va, m) && Mapped(t, mem, va + m, n)
    ensures Mapped(t, mem, va, m + n)
  {
    forall v | va <= v < va + m + n ensures MappedAt(t, mem, v) {
      assert v < va + m || (va + m <= v < va + m + n);
    }
  }

  /** What is printed with one more chunk, read from memory as it is now, is what the user's buffer held at the call. */
  lemma ChunkBytes(t: Places, before: Contents, now: Contents, k: nat, l: nat, buffer: nat, size: nat, written: nat,
      chunk: nat,
                   printed: seq<Byte>)
    requires SameBut(t, before, now, k, l, MAX_WRITE) && written + chunk <= size
    requires Clear(t, buffer, size, k, MAX_WRITE) && Clear(t, buffer, size, l, MAX_WRITE)
    requires Mapped(t, before, buffer, written) && Mapped(t, before, buffer + written, chunk)
    ensures Mapped(t, now, buffer + written, chunk) && Mapped(t, before, buffer, written + chunk)
    ensures printed + BytesAt(t, before, buffer, written) + BytesAt(t, now, buffer + written, chunk)
         == printed + BytesAt(t, before, buffer, written + chunk)
  {
    BytesKept(t, before, now, k, l, MAX_WRITE, buffer + written, chunk);
    JoinMapped(t, before, buffer, written, chunk);
    BytesSplit(t, before, buffer, written, chunk);
  }

  /** The kernel buffer serves any chunk of the user's buffer, at any time. */
  lemma ChunkBuffer(t: Places, mem: Contents, mem': Contents, k: nat, buffer: nat, size: nat, written: nat, chunk: nat)
    requires BufferFor(t, mem, k, buffer, size) && written + chunk <= size
    requires |mem'| == |mem| && forall f :: 0 <= f < |mem| ==> |mem'[f]| == |mem[f]|
    ensures BufferFor(t, mem', k, buffer + written, chunk)
  {
    MappedKept(t, mem, mem', k, MAX_WRITE);
  }

  class Console {
    const m: Memories
    var out: seq<Byte>

    constructor (m: Memories)
      ensures this.m == m && out == []
    {
      this.m := m;
      out := [];
    }

    /** sys_write_console */
    method WriteConsole(buffer: nat, size: int, ghost t: Places) returns (w: int)
      requires m.Valid() && m.Coherent() && Gives(m.tables[m.cr3], t) && Mapped(t, m.contents, buffer, Count(size))
      modifies this`out, m`tlb
      ensures m.Valid() && m.Coherent() && w == size
      ensures out == old(out) + BytesAt(t, m.contents, buffer, Count(size))
    {
      var i := 0;
      while i < size
        invariant m.Valid() && m.Coherent() && 0 <= i <= Count(size)
        invariant out == old(out) + BytesAt(t, m.contents, buffer, i)
      {
        assert MappedAt(t, m.contents, buffer + i);
        var b := m.LoadByte(buffer + i, t);
        out := out + [b];
        i := i + 1;
      }
      w := size;
    }

    /** One chunk: copy_from_user into the kernel buffer, then the console -- unless the copy faults. */
    method WriteChunk(buffer: nat, k: nat, size: nat, ghost t: Places) returns (ok: bool, ghost done: nat)
      requires m.Valid() && m.Coherent() && Gives(m.tables[m.cr3], t) && size <= MAX_WRITE
      requires BufferFor(t, m.contents, k, buffer, size)
      modifies this`out, m`tlb, m`contents, m.mem
      ensures m.Valid() && m.Coherent() && (ok <==> Mapped(t, old(m.contents), buffer, size))
      ensures out == if ok then old(out) + BytesAt(t, old(m.contents), buffer, size) else old(out)
      ensures done <= size && Mapped(t, old(m.contents), buffer, done) && Mapped(t, old(m.contents), k, done)
      ensures m.contents == CopyBytes(t, old(m.contents), buffer, k, done)
    {
      ghost var before := m.contents;
      assert Separate(t, buffer, k, size) && Mapped(t, before, k, size);
      ok, done := m.CopyData(buffer, k, size, t);
      if ok {
        BytesCopied(t, before, buffer, k, size);
        var w := WriteConsole(k, size, t);
      }
    }

    /** sys_write. `loopBuffer` and `lastBuffer` are where the two kernel buffers stand on the kernel stack. A rejected
        call prints nothing. An accepted one prints the first `size` bytes of the user's buffer in order and returns
        `size`; if not all of them are in reach it prints exactly the chunks of 128 before the first one that is not,
        and faults. In any case it changes no byte of memory but those of the kernel buffers. */
    method SysWrite(fd: int, buffer: nat, size: int, loopBuffer: nat, lastBuffer: nat, ghost t: Places)
        returns (r: Outcome, ghost printed: nat)
      requires m.Valid() && m.Coherent() && Gives(m.tables[m.cr3], t)
      requires fd == 1 && buffer != 0 && size >= 0 ==>
        BufferFor(t, m.contents, loopBuffer, buffer, size) && BufferFor(t, m.contents, lastBuffer, buffer, size)
      modifies this`out, m`tlb, m`contents, m.mem
      ensures m.Valid() && m.Coherent()
      ensures fd != 1 ==> r == Returned(-EBADF)
      ensures fd == 1 && buffer == 0 ==> r == Returned(-EFAULT)
      ensures fd == 1 && buffer != 0 && size < 0 ==> r == Returned(-EINVAL)
      ensures r.Returned? && r.value < 0 ==> out == old(out) && m.contents == old(m.contents)
      ensures fd == 1 && buffer != 0 && size >= 0 ==>
        && r == (if Mapped(t, old(m.contents), buffer, size) then Returned(size) else PageFault)
        && (if r.PageFault? then LastChunk(t, old(m.contents), buffer, size, printed) else printed == size)
        && Mapped(t, old(m.contents), buffer, printed) && out == old(out) + BytesAt(t, old(m.contents), buffer, printed)
        && SameBut(t, old(m.contents), m.contents, loopBuffer, lastBuffer, MAX_WRITE)
    {
      printed := 0;
      if fd != 1 {
        return Returned(-EBADF), 0;
      }
      if buffer == 0 {
        return Returned(-EFAULT), 0;
      }
      if size < 0 {
        return Returned(-EINVAL), 0;
      }
      ghost var before := m.contents;
      var written: nat, left, ok := 0, size, true;
      while left >= MAX_WRITE && ok
        invariant Writing(before, old(out), buffer, size, written, loopBuffer, lastBuffer, t)
        invariant left == size - written && written % MAX_WRITE == 0
        invariant !ok ==> LastChunk(t, before, buffer, size, written)
        decreases left, ok
      {
        ok, written := Next(MAX_WRITE, loopBuffer, before, old(out), buffer, size, written, loopBuffer, lastBuffer, t);
        left := size - written;
      }
      if ok {
        ok, written := Next(left, lastBuffer, before, old(out), buffer, size, written, loopBuffer, lastBuffer, t);
      }
      if !ok { NotAll(t, before, buffer, size, written); }
      r, printed := if ok then Returned(written) else PageFault, written;
    }

    /** `written` of the `size` bytes have been printed. */
    ghost predicate Writing(before: Contents, printed: seq<Byte>, buffer: nat, size: nat, written: nat, k: nat, l: nat,
        t: Places)
      reads this, m, m.pt, m.mem
    {
      && m.Valid() && m.Coherent() && Gives(m.tables[m.cr3], t) && written <= size
      && Mapped(t, before, buffer, written)
      && SameBut(t, before, m.contents, k, l, MAX_WRITE)
      && out == printed + BytesAt(t, before, buffer, written)
    }

    method Next(chunk: nat, dest: nat, ghost before: Contents, ghost printed: seq<Byte>, buffer: nat, ghost size: nat,
        written: nat,
                ghost k: nat, ghost l: nat, ghost t: Places) returns (ok: bool, written': nat)
      requires Writing(before, printed, buffer, size, written, k, l, t) && written % MAX_WRITE == 0
      requires chunk == (if size - written >= MAX_WRITE then MAX_WRITE else size - written)
      requires (dest == k || dest == l) && BufferFor(t, before, k, buffer, size)
        && BufferFor(t, before, l, buffer, size)
      modifies this`out, m`tlb, m`contents, m.mem
      ensures Writing(before, printed, buffer, size, written', k, l, t)
      ensures written' == if ok then written + chunk else written
      ensures !ok ==> LastChunk(t, before, buffer, size, written)
    {
      ghost var now := m.contents;
      ok := PrintChunk(chunk, dest, before, buffer, size, written, k, l, t);
      written' := written;
      if ok {
        ChunkBytes(t, before, now, k, l, buffer, size, written, chunk, printed);
        written' := written + chunk;
      }
    }

    /** One chunk, seen from the start of the call. */
    method PrintChunk(chunk: nat, dest: nat, ghost before: Contents, buffer: nat, ghost size: nat, written: nat,
                      ghost k: nat, ghost l: nat, ghost t: Places) returns (ok: bool)
      requires m.Valid() && m.Coherent() && Gives(m.tables[m.cr3], t) && SameBut(t, before, m.contents, k, l, MAX_WRITE)
      requires written + chunk <= size && chunk <= MAX_WRITE && (dest == k || dest == l)
        && BufferFor(t, before, dest, buffer, size)
      modifies this`out, m`tlb, m`contents, m.mem
      ensures m.Valid() && m.Coherent() && SameBut(t, before, m.contents, k, l, MAX_WRITE)
      ensures ok <==> Mapped(t, before, buffer + written, chunk)
      ensures ok ==> Mapped(t, old(m.contents), buffer + written, chunk)
      ensures out == if ok then old(out) + BytesAt(t, old(m.contents), buffer + written, chunk) else old(out)
    {
      ghost var now := m.contents;
      ChunkBuffer(t, before, now, dest, buffer, size, written, chunk);
      SameMapped(t, before, now, buffer + written, chunk);
      ghost var done;
      ok, done := WriteChunk(buffer + written, dest, chunk, t);
      CopyIsSameBut(t, before, now, buffer + written, dest, done, k, l, MAX_WRITE);
    }
  }
}
