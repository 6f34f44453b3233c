/** Machine constants and the configuration of a ZeOS build. */
module Params {

  const PAGE_SIZE: nat := 0x1000
  /** Number of values of a 32-bit word. */
  const WORD: nat := 0x1_0000_0000
  const INT_MAX: int := 0x7fff_ffff
  const INT_MIN: int := -0x8000_0000

  /** Error numbers; a routine returns their negation. */
  const ESRCH: int := 3
  const EBADF: int := 9
  const EAGAIN: int := 11
  const ENOMEM: int := 12
  const EFAULT: int := 14
  const EINVAL: int := 22
  const ENOSYS: int := 38

  /** How a system call that touches user memory ends: it returns, or the kernel itself runs into a page fault. */
  datatype Outcome = Returned(value: int) | PageFault

  /** The unsigned reading of a 32-bit int argument. */
  function AsUnsigned(x: int): (u: nat)
    ensures u < WORD && (u - x) % WORD == 0 && (0 <= x < WORD ==> u == x)
  {
    x % WORD
  }

  /** The int `x - 1`, wrapping at INT_MIN as the x86 decrement does. */
  function Dec32(x: int): int
  {
    if x == INT_MIN then INT_MAX else x - 1
  }

  /** The int `x + 1`, wrapping at INT_MAX. */
  function Inc32(x: int): int
  {
    if x == INT_MAX then INT_MIN else x + 1
  }

  /** The compile-time constants of a kernel build: number of PCBs, kernel, code and data pages, frames, first
      quantum. */
  datatype Config = Config(nr: nat, kernel: nat, code: nat, data: nat, total: nat, quantum: int) {

    /** What the sources rely on without checking it: the idle and the initial PCB exist, the temporary window of fork
        fits in a page table, a frame number fits in 20 bits, the initial process can be loaded, and the frame that
        free_frame never frees is a code frame. */
    predicate Valid()
    {
      && nr >= 2
      && 1 <= code
      && kernel + code + 2 * data <= total <= 0x10_0000
      && code + data <= Slots()
      && 0 <= quantum <= INT_MAX
    }

    /** Frames that alloc_frame can ever hand out: every second one from the end of the kernel. */
    function Slots(): int
    {
      (total - kernel + 1) / 2
    }

    /** First data page, and first page of the window that fork uses to reach the child's frames. */
    function DataPage(): nat { kernel + code }
    function WindowPage(): nat { kernel + code + data }

    /** init_sched pushes the PCBs in order on the free queue, so idle is the last PCB and the initial process the one
        before. */
    function Idle(): int { nr - 1 }
    function Init(): int { nr - 2 }

    /** Room for the data of every PCB but idle. */
    predicate Capacity()
    {
      code + data * (nr - 1) <= Slots()
    }
  }

  /** The shipped constants (mm_address.h, sched.h). */
  const ZEOS: Config := Config(10, 256, 8, 20, 1024, 18)

  lemma ZeosIsValid()
    ensures ZEOS.Valid() && ZEOS.Capacity()
    ensures ZEOS.DataPage() == 264 && ZEOS.WindowPage() == 284
  {
  }
}
