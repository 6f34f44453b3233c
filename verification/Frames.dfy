/** The physical frame map: allocation, release, the count of free frames, and exact rollback. */
module Frames {
  import opened Params

  /** The frames alloc_frame looks at. */
  predicate Slot(c: Config, f: int)
  {
    c.kernel <= f < c.total && (f - c.kernel) % 2 == 0
  }

  ghost predicate Distinct(frames: seq<nat>)
  {
    forall i, j :: 0 <= i < j < |frames| ==> frames[i] != frames[j]
  }

  /** init_frames: only the kernel's frames are used. */
  function InitialFrames(c: Config): (used: seq<bool>)
    ensures |used| == c.total
  {
    seq(c.total, i => i < c.kernel)
  }

  /** The first free slot at or after slot `i`, or -1. */
  function FirstFree(c: Config, used: seq<bool>, i: nat): (r: int)
    requires |used| == c.total && c.kernel <= i && (i - c.kernel) % 2 == 0
    ensures r == -1 || (i <= r && Slot(c, r) && !used[r])
    ensures forall f :: i <= f && Slot(c, f) && !used[f] ==> 0 <= r <= f
    decreases c.total - i
  {
    if i >= c.total then -1
    else if !used[i] then i
    else FirstFree(c, used, i + 2)
  }

  /** How many slots at or after slot `i` are free. */
  function FreeSlots(c: Config, used: seq<bool>, i: nat): nat
    requires |used| == c.total && c.kernel <= i && (i - c.kernel) % 2 == 0
    decreases c.total - i
  {
    if i >= c.total then 0 else (if used[i] then 0 else 1) + FreeSlots(c, used, i + 2)
  }

  /** The outcome of asking for frames one by one until one request fails. */
  datatype Allocation = Allocation(used: seq<bool>, frames: seq<nat>)

  function AllocFrames(c: Config, used: seq<bool>, n: nat): (a: Allocation)
    requires |used| == c.total
    ensures |a.used| == c.total && |a.frames| <= n
  {
    if n == 0 then Allocation(used, [])
    else
      var a := AllocFrames(c, used, n - 1);
      if |a.frames| < n - 1 then a
      else
        var f := FirstFree(c, a.used, c.kernel);
        if f < 0 then a else Allocation(a.used[f := true], a.frames + [f])
  }

  /** The map after free_frame on each of `frames`: the guard of free_frame leaves frame `kernel` alone. */
  function FreeAll(c: Config, used: seq<bool>, frames: seq<nat>): (r: seq<bool>)
    ensures |r| == |used|
  {
    seq(|used|, i requires 0 <= i < |used| => used[i] && !(c.kernel < i < c.total && i in frames))
  }

  // ---------------------------------------------------------------- counting

  lemma {:induction false} FreeSlotsUpdate(c: Config, used: seq<bool>, i: nat, f: nat, b: bool)
    requires |used| == c.total && c.kernel <= i && (i - c.kernel) % 2 == 0
    requires Slot(c, f) && i <= f && used[f] != b
    ensures FreeSlots(c, used[f := b], i) == FreeSlots(c, used, i) + (if b then -1 else 1)
    decreases c.total - i
  {
    if i == f {
      FreeSlotsFrame(c, used, used[f := b], i + 2);
    } else {
      FreeSlotsUpdate(c, used, i + 2, f, b);
    }
  }

  lemma {:induction false} FreeSlotsFrame(c: Config, used: seq<bool>, used': seq<bool>, i: nat)
    requires |used| == |used'| == c.total && c.kernel <= i && (i - c.kernel) % 2 == 0
    requires forall f :: i <= f < c.total ==> used[f] == used'[f]
    ensures FreeSlots(c, used, i) == FreeSlots(c, used', i)
    decreases c.total - i
  {
    if i < c.total { FreeSlotsFrame(c, used, used', i + 2); }
  }

  lemma {:induction false} FreeSlotsZero(c: Config, used: seq<bool>, i: nat)
    requires |used| == c.total && c.kernel <= i && (i - c.kernel) % 2 == 0
    ensures FreeSlots(c, used, i) == 0 <==> FirstFree(c, used, i) == -1
    decreases c.total - i
  {
    if i < c.total { FreeSlotsZero(c, used, i + 2); }
  }

  lemma {:induction false} FreeSlotsAll(c: Config, used: seq<bool>, i: nat)
    requires |used| == c.total && c.kernel <= i <= c.total + 1 && (i - c.kernel) % 2 == 0
    requires forall f :: i <= f < c.total ==> !used[f]
    ensures FreeSlots(c, used, i) == (c.total - i + 1) / 2
    decreases c.total - i
  {
    if i < c.total { FreeSlotsAll(c, used, i + 2); }
  }

  /** `a` is what n requests should give: as many frames as there are free slots, all of them free before, distinct, and
      no other frame changed. */
  ghost predicate Allocated(c: Config, used: seq<bool>, n: nat, a: Allocation)
    requires |used| == c.total == |a.used|
  {
    var free := FreeSlots(c, used, c.kernel);
    && |a.frames| == (if n <= free then n else free)
    && FreeSlots(c, a.used, c.kernel) == free - |a.frames|
    && Distinct(a.frames)
    && (forall i :: 0 <= i < |a.frames| ==> Slot(c, a.frames[i]) && !used[a.frames[i]])
    && (forall f :: 0 <= f < c.total ==> a.used[f] == (used[f] || f in a.frames))
  }

  lemma OneMoreFrame(c: Config, used: seq<bool>, n: nat, a: Allocation, f: nat)
    requires |used| == c.total == |a.used| && Allocated(c, used, n, a) && |a.frames| == n && Slot(c, f) && !a.used[f]
    requires FreeSlots(c, a.used, c.kernel) > 0
    ensures Allocated(c, used, n + 1, Allocation(a.used[f := true], a.frames + [f]))
  {
    FreeSlotsUpdate(c, a.used, c.kernel, f, true);
    assert forall i :: 0 <= i < |a.frames| ==> a.frames[i] in a.frames;
  }

  lemma {:induction false} AllocFramesSpec(c: Config, used: seq<bool>, n: nat)
    requires |used| == c.total
    ensures Allocated(c, used, n, AllocFrames(c, used, n))
  {
    if n > 0 {
      AllocFramesSpec(c, used, n - 1);
      var a := AllocFrames(c, used, n - 1);
      FreeSlotsZero(c, a.used, c.kernel);
      if |a.frames| == n - 1 {
        var f := FirstFree(c, a.used, c.kernel);
        if f >= 0 { OneMoreFrame(c, used, n - 1, a, f); }
      }
    }
  }

  /** On a map with nothing used past the kernel, the frames come out in order. */
  lemma {:induction false} AllocFromBoot(c: Config, n: nat)
    requires c.kernel <= c.total && n <= c.Slots()
    ensures var a := AllocFrames(c, InitialFrames(c), n);
      && |a.frames| == n
      && (forall i :: 0 <= i < n ==> a.frames[i] == c.kernel + 2 * i)
      && FreeSlots(c, a.used, c.kernel) == c.Slots() - n
  {
    BootCount(c, n);
    if n > 0 {
      AllocFromBoot(c, n - 1);
      BootUsed(c, n - 1);
      NextFromBoot(c, AllocFrames(c, InitialFrames(c), n - 1), n - 1);
    }
  }

  lemma BootCount(c: Config, n: nat)
    requires c.kernel <= c.total && n <= c.Slots()
    ensures var a := AllocFrames(c, InitialFrames(c), n);
      |a.frames| == n && FreeSlots(c, a.used, c.kernel) == c.Slots() - n
  {
    AllocFramesSpec(c, InitialFrames(c), n);
    FreeSlotsAll(c, InitialFrames(c), c.kernel);
  }

  lemma BootUsed(c: Config, n: nat)
    ensures var a := AllocFrames(c, InitialFrames(c), n);
      forall f :: 0 <= f < c.total ==> a.used[f] == (f < c.kernel || f in a.frames)
  {
    AllocFramesSpec(c, InitialFrames(c), n);
  }

  /** One more frame at boot. */
  lemma BootStep(c: Config, i: nat)
    requires c.kernel <= c.total && i < c.Slots()
    ensures var a := AllocFrames(c, InitialFrames(c), i);
      && |a.frames| == i && c.kernel + 2 * i < c.total && FirstFree(c, a.used, c.kernel) == c.kernel + 2 * i
      && AllocFrames(c, InitialFrames(c), i + 1) == Allocation(a.used[c.kernel + 2 * i := true],
          a.frames + [c.kernel + 2 * i])
  {
    AllocFromBoot(c, i);
    AllocFromBoot(c, i + 1);
    assert AllocFrames(c, InitialFrames(c), i + 1).frames[i] == c.kernel + 2 * i;
  }

  lemma NextFromBoot(c: Config, a: Allocation, n: nat)
    requires |a.used| == c.total && |a.frames| == n && n < c.Slots()
    requires forall i :: 0 <= i < n ==> a.frames[i] == c.kernel + 2 * i
    requires forall f :: 0 <= f < c.total ==> a.used[f] == (f < c.kernel || f in a.frames)
    ensures FirstFree(c, a.used, c.kernel) == c.kernel + 2 * n
  {
    var g := c.kernel + 2 * n;
    assert Slot(c, g) && !a.used[g];
    forall f | Slot(c, f) && f < g
      ensures a.used[f]
    {
      assert a.frames[(f - c.kernel) / 2] == f;
    }
  }

  /** Releasing distinct used frames gives back exactly that many slots. */
  lemma {:induction false} FreeAllCount(c: Config, used: seq<bool>, frames: seq<nat>)
    requires |used| == c.total && Distinct(frames)
    requires forall i :: 0 <= i < |frames| ==> Slot(c, frames[i]) && c.kernel < frames[i] && used[frames[i]]
    ensures FreeSlots(c, FreeAll(c, used, frames), c.kernel) == FreeSlots(c, used, c.kernel) + |frames|
  {
    if frames == [] {
      assert FreeAll(c, used, frames) == used;
    } else {
      var n := |frames| - 1;
      var rest, f := frames[..n], frames[n];
      assert frames == rest + [f];
      FreeAllCount(c, used, rest);
      assert f !in rest;
      assert FreeAll(c, used, frames) == FreeAll(c, used, rest)[f := false];
      FreeSlotsUpdate(c, FreeAll(c, used, rest), c.kernel, f, false);
    }
  }

  /** Rollback exactness: whatever number of requests succeeded, releasing them restores the map, provided frame
      `kernel` was in use; the release of the failed request's -1 is a no-op. */
  lemma {:induction false} RollbackIsExact(c: Config, used: seq<bool>, n: nat)
    requires |used| == c.total && c.total < WORD - 1
    ensures FreeAll(c, AllocFrames(c, used, n).used, AllocFrames(c, used, n).frames + [AsUnsigned(-1)]) == used
      <==> (c.kernel < c.total && !used[c.kernel] ==> n == 0)
  {
    AllocFramesSpec(c, used, n);
    var a := AllocFrames(c, used, n);
    var r := FreeAll(c, a.used, a.frames + [AsUnsigned(-1)]);
    assert forall f :: 0 <= f < c.total ==> (f in a.frames + [AsUnsigned(-1)] <==> f in a.frames);
    assert forall f :: f in a.frames ==> !used[f];
    if c.kernel < c.total && !used[c.kernel] && n > 0 {
      FirstGrab(c, used, n);
      assert r[c.kernel] && !used[c.kernel];
    }
  }

  lemma {:induction false} FirstGrab(c: Config, used: seq<bool>, n: nat)
    requires |used| == c.total && c.kernel < c.total && !used[c.kernel] && n > 0
    ensures c.kernel in AllocFrames(c, used, n).frames
  {
    if n > 1 {
      FirstGrab(c, used, n - 1);
      assert AllocFrames(c, used, n - 1).frames <= AllocFrames(c, used, n).frames;
    }
  }

  // ---------------------------------------------------------------- the code

  /** init_frames */
  method InitFrames(c: Config, phys: array<bool>)
    requires phys.Length == c.total && c.kernel <= c.total
    modifies phys
    ensures phys[..] == InitialFrames(c)
  {
    for i := 0 to c.total
      invariant forall j :: 0 <= j < i ==> !phys[j]
    {
      phys[i] := false;
    }
    for i := 0 to c.kernel
      invariant forall j :: 0 <= j < c.total ==> phys[j] == (j < i)
    {
      phys[i] := true;
    }
  }

  /** alloc_frame */
  method AllocFrame(c: Config, phys: array<bool>) returns (f: int)
    requires phys.Length == c.total
    modifies phys
    ensures f == FirstFree(c, old(phys[..]), c.kernel)
    ensures phys[..] == if f < 0 then old(phys[..]) else old(phys[..])[f := true]
  {
    var i := c.kernel;
    while i < c.total
      invariant c.kernel <= i && (i - c.kernel) % 2 == 0
      invariant phys[..] == old(phys[..])
      invariant FirstFree(c, old(phys[..]), c.kernel) == FirstFree(c, old(phys[..]), i)
    {
      if !phys[i] {
        phys[i] := true;
        return i;
      }
      i := i + 2;
    }
    return -1;
  }

  /** free_frame; its parameter is unsigned. */
  method FreeFrame(c: Config, phys: array<bool>, frame: nat)
    requires phys.Length == c.total
    modifies phys
    ensures phys[..] == FreeAll(c, old(phys[..]), [frame])
  {
    if frame > c.kernel && frame < c.total {
      phys[frame] := false;
    }
  }

  /** The unsigned values the frame numbers have when they are passed to free_frame. */
  function Unsigned(got: seq<int>): (r: seq<nat>)
    ensures |r| == |got| && forall k :: 0 <= k < |got| ==> r[k] == AsUnsigned(got[k])
  {
    seq(|got|, k requires 0 <= k < |got| => AsUnsigned(got[k]))
  }

  /** The release loop of sys_fork's failure path, from the last request back to the first. */
  method Rollback(c: Config, phys: array<bool>, got: seq<int>)
    requires phys.Length == c.total
    modifies phys
    ensures phys[..] == FreeAll(c, old(phys[..]), Unsigned(got))
  {
    ghost var us := Unsigned(got);
    var i := |got| - 1;
    while i >= 0
      invariant -1 <= i < |got|
      invariant phys[..] == FreeAll(c, old(phys[..]), us[i + 1..])
    {
      assert us[i..] == [us[i]] + us[i + 1..];
      FreeFrame(c, phys, AsUnsigned(got[i]));
      i := i - 1;
    }
  }

  /** sys_fork's reservation loop with its rollback: either all `n` frames, or none and an untouched map. */
  method ReserveFrames(c: Config, phys: array<bool>, n: nat) returns (ok: bool, frames: seq<nat>)
    requires phys.Length == c.total && c.kernel < c.total < WORD - 1 && phys[c.kernel]
    modifies phys
    ensures ok <==> n <= FreeSlots(c, old(phys[..]), c.kernel)
    ensures ok ==> frames == AllocFrames(c, old(phys[..]), n).frames && |frames| == n
                   && phys[..] == AllocFrames(c, old(phys[..]), n).used
    ensures !ok ==> phys[..] == old(phys[..])
  {
    ghost var before := phys[..];
    frames := [];
    AllocFramesSpec(c, before, 0);
    while |frames| < n
      invariant |frames| <= n
      invariant AllocFrames(c, before, |frames|) == Allocation(phys[..], frames)
      invariant |frames| + FreeSlots(c, phys[..], c.kernel) == FreeSlots(c, before, c.kernel)
    {
      var f := AllocFrame(c, phys);
      ReserveStep(c, before, |frames|);
      if f == -1 {
        Rollback(c, phys, frames + [f]);
        return false, [];
      }
      frames := frames + [f];
    }
    ok := true;
  }

  /** One more request after `n` successful ones. */
  lemma ReserveStep(c: Config, used: seq<bool>, n: nat)
    requires |used| == c.total && c.kernel < c.total < WORD - 1 && used[c.kernel]
    requires |AllocFrames(c, used, n).frames| == n
    ensures var a := AllocFrames(c, used, n);
      var f := FirstFree(c, a.used, c.kernel);
      var got: seq<int> := a.frames;
      if f == -1 then FreeSlots(c, a.used, c.kernel) == 0 && FreeAll(c, a.used, Unsigned(got + [-1])) == used
      else FreeSlots(c, a.used[f := true], c.kernel) == FreeSlots(c, a.used, c.kernel) - 1
  {
    var a := AllocFrames(c, used, n);
    var f := FirstFree(c, a.used, c.kernel);
    FreeSlotsZero(c, a.used, c.kernel);
    if f == -1 {
      RollbackIsExact(c, used, n);
      SmallUnsigned(c, used, n);
    } else {
      FreeSlotsUpdate(c, a.used, c.kernel, f, true);
    }
  }

  /** Frame numbers are their own unsigned values; only the failed request's -1 is not. */
  lemma SmallUnsigned(c: Config, used: seq<bool>, n: nat)
    requires |used| == c.total < WORD - 1
    ensures var got: seq<int> := AllocFrames(c, used, n).frames;
      Unsigned(got + [-1]) == AllocFrames(c, used, n).frames + [AsUnsigned(-1)]
  {
    AllocFramesSpec(c, used, n);
  }
}
