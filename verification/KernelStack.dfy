/** The kernel stack: system call entry and exit of entry.S, the switch, and why fork returns twice. */
module KernelStack {
  import opened Params

  type Word = int

  /** KERNEL_STACK_SIZE, and the code addresses that end up on a stack. */
  const SIZE: nat := 1024
  const IN_HANDLER: Word := 1   // after the call in system_call_handler
  const RET_FROM_FORK: Word := 2
  const KERNEL_DS: Word := 0x18

  datatype Regs = Regs(ebx: Word, ecx: Word, edx: Word, esi: Word, edi: Word, ebp: Word, eax: Word, ds: Word, es: Word,
      fs: Word, gs: Word)

  /** What a user program sees of itself. */
  datatype User = User(r: Regs, eip: Word, cs: Word, eflags: Word, esp: Word, ss: Word)

  /** Processor in kernel mode: a stack of SIZE words, the index of its top word, the registers. The addresses of stack
      words are their indices. */
  datatype Cpu = Cpu(stack: seq<Word>, sp: nat, r: Regs)

  predicate Ok(c: Cpu)
  {
    |c.stack| == SIZE && c.sp <= SIZE
  }

  function Push(c: Cpu, w: Word): (c': Cpu)
    requires Ok(c) && c.sp > 0
    ensures Ok(c') && c'.sp == c.sp - 1 && c'.r == c.r
  {
    c.(stack := c.stack[c.sp - 1 := w], sp := c.sp - 1)
  }

  /** Several words; the last one pushed is the first of `ws`. */
  function PushAll(c: Cpu, ws: seq<Word>): (c': Cpu)
    requires Ok(c) && |ws| <= c.sp
    ensures Ok(c') && c'.sp == c.sp - |ws| && c'.r == c.r
    ensures forall i :: c.sp <= i < SIZE ==> c'.stack[i] == c.stack[i]
    ensures forall i :: c'.sp <= i < c.sp ==> c'.stack[i] == ws[i - c'.sp]
  {
    c.(stack := c.stack[..c.sp - |ws|] + ws + c.stack[c.sp..], sp := c.sp - |ws|)
  }

  function Top(c: Cpu): Word
    requires Ok(c) && c.sp < SIZE
  {
    c.stack[c.sp]
  }

  function Drop(c: Cpu): (c': Cpu)
    requires Ok(c) && c.sp < SIZE
    ensures Ok(c') && c'.sp == c.sp + 1 && c'.r == c.r && c'.stack == c.stack
  {
    c.(sp := c.sp + 1)
  }

  /** The interrupt: switch to an empty kernel stack and push the return context. */
  function Interrupt(u: User, stack: seq<Word>): (c: Cpu)
    requires |stack| == SIZE
    ensures Ok(c) && c.sp == SIZE - 5 && c.r == u.r
    ensures var s, k := c.stack, c.sp;
      s[k] == u.eip && s[k + 1] == u.cs && s[k + 2] == u.eflags && s[k + 3] == u.esp && s[k + 4] == u.ss
  {
    PushAll(Cpu(stack, SIZE, u.r), [u.eip, u.cs, u.eflags, u.esp, u.ss])
  }

  /** SAVE_ALL */
  function SaveAll(c: Cpu): (c': Cpu)
    requires Ok(c) && c.sp >= 11
    ensures Ok(c') && c'.sp == c.sp - 11
    ensures RestoreAll(c') == c'.(sp := c.sp, r := c.r)
    ensures c'.r.ds == c'.r.es == c'.r.edx == KERNEL_DS && c'.r == c.r.(ds := c'.r.ds, es := c'.r.es, edx := c'.r.edx)
    ensures forall i :: c.sp <= i < SIZE ==> c'.stack[i] == c.stack[i]
  {
    var r := c.r;
    var saved := [r.ebx, r.ecx, r.edx, r.esi, r.edi, r.ebp, r.eax, r.ds, r.es, r.fs, r.gs];
    PushAll(c, saved).(r := r.(edx := KERNEL_DS, ds := KERNEL_DS, es := KERNEL_DS))
  }

  lemma SavedIs(c: Cpu, s: seq<Word>)
    requires Ok(c) && c.sp >= 11 && |s| == SIZE
    requires forall i :: 0 <= i < SIZE && (i < c.sp - 11 || c.sp <= i) ==> s[i] == c.stack[i]
    requires var r, k := c.r, c.sp - 11;
      && s[k] == r.ebx && s[k + 1] == r.ecx && s[k + 2] == r.edx && s[k + 3] == r.esi && s[k + 4] == r.edi
          && s[k + 5] == r.ebp
      && s[k + 6] == r.eax && s[k + 7] == r.ds && s[k + 8] == r.es && s[k + 9] == r.fs && s[k + 10] == r.gs
    ensures s == SaveAll(c).stack
  {
  }

  /** RESTORE_ALL */
  function RestoreAll(c: Cpu): (c': Cpu)
    requires Ok(c) && c.sp + 11 <= SIZE
    ensures Ok(c') && c'.sp == c.sp + 11
  {
    var s, k := c.stack, c.sp;
    c.(sp := k + 11, r := Regs(s[k], s[k + 1], s[k + 2], s[k + 3], s[k + 4], s[k + 5], s[k + 6], s[k + 7], s[k + 8],
        s[k + 9], s[k + 10]))
  }

  /** iret to user mode. */
  function Iret(c: Cpu): User
    requires Ok(c) && c.sp + 5 <= SIZE
  {
    var s, k := c.stack, c.sp;
    User(c.r, s[k], s[k + 1], s[k + 2], s[k + 3], s[k + 4])
  }

  /** The tail of system_call_handler: store the result in the saved eax, restore, return. */
  function Leave(c: Cpu): User
    requires Ok(c) && c.sp + 16 <= SIZE
  {
    Iret(RestoreAll(c.(stack := c.stack[c.sp + 6 := c.r.eax])))
  }

  /** call: push the return address. */
  function Call(c: Cpu, from: Word): Cpu
    requires Ok(c) && c.sp > 0
  {
    Push(c, from)
  }

  /** The prologue of a C function: push ebp, ebp = esp. */
  function Prologue(c: Cpu): (c': Cpu)
    requires Ok(c) && c.sp > 0
    ensures Ok(c') && c'.sp == c.sp - 1
  {
    var p := Push(c, c.r.ebp);
    p.(r := p.r.(ebp := p.sp))
  }

  /** What the body of a C function with `args` argument words may do: anything to the registers but ebp, to the stack
      below its frame, and to its arguments, which stand above the return address and are its own variables. */
  ghost predicate Body(c: Cpu, c': Cpu, args: nat)
  {
    && Ok(c) && Ok(c') && c'.r.ebp == c.r.ebp && 0 <= c.r.ebp <= SIZE
    && forall i :: c.r.ebp <= i < SIZE && !(c.r.ebp + 2 <= i < c.r.ebp + 2 + args) ==> c'.stack[i] == c.stack[i]
  }

  /** leave: esp = ebp, pop ebp. */
  function Unwind(c: Cpu): (c': Cpu)
    requires Ok(c) && 0 <= c.r.ebp < SIZE
    ensures Ok(c') && c'.sp == c.r.ebp + 1 && c'.stack == c.stack
  {
    Cpu(c.stack, c.r.ebp + 1, c.r.(ebp := c.stack[c.r.ebp]))
  }

  /** A system call up to the first instruction of the C routine's body. */
  function EnterCall(u: User, stack: seq<Word>): (c: Cpu)
    requires |stack| == SIZE
    ensures Ok(c) && c.sp == SIZE - 18 && c.r.ebp == c.sp
  {
    Prologue(Call(SaveAll(Interrupt(u, stack)), IN_HANDLER))
  }

  /** The words the entry leaves above the frame of the C routine: the address to return to, the saved registers, and
      the context the processor saved. */
  predicate HandlerFrame(s: seq<Word>, u: User)
    requires |s| == SIZE
  {
    var k := SIZE - 16;
    && s[k - 1] == IN_HANDLER
    && s[k] == u.r.ebx && s[k + 1] == u.r.ecx && s[k + 2] == u.r.edx && s[k + 3] == u.r.esi && s[k + 4] == u.r.edi
    && s[k + 5] == u.r.ebp && s[k + 6] == u.r.eax
    && s[k + 7] == u.r.ds && s[k + 8] == u.r.es && s[k + 9] == u.r.fs && s[k + 10] == u.r.gs
    && s[k + 11] == u.eip && s[k + 12] == u.cs && s[k + 13] == u.eflags && s[k + 14] == u.esp && s[k + 15] == u.ss
  }

  lemma Layout(u: User, stack: seq<Word>)
    requires |stack| == SIZE
    ensures HandlerFrame(EnterCall(u, stack).stack, u)
  {
  }

  /** A stack that agrees with one holding a handler frame from there up holds it too. */
  lemma FrameKept(s: seq<Word>, s': seq<Word>, u: User)
    requires |s| == |s'| == SIZE && HandlerFrame(s, u)
    requires forall i :: SIZE - 17 <= i < SIZE ==> s'[i] == s[i]
    ensures HandlerFrame(s', u)
  {
  }

  /** The C routine returns with `result` in eax: where it goes, and what the user then sees. */
  function ReturnTo(c: Cpu): Word
    requires Ok(c) && 0 <= c.r.ebp < SIZE - 1
  {
    Top(Unwind(c))
  }

  function ReturnUser(c: Cpu, result: Word): User
    requires Ok(c) && 0 <= c.r.ebp <= SIZE - 18
  {
    var d := Drop(Unwind(c));
    Leave(d.(r := d.r.(eax := result)))
  }

  /** A frame that stands on a handler frame returns to the handler, and from there to the user with only eax
      changed. */
  lemma FrameReturns(u: User, c: Cpu, result: Word)
    requires Ok(c) && c.r.ebp == SIZE - 18 && HandlerFrame(c.stack, u)
    ensures ReturnTo(c) == IN_HANDLER && ReturnUser(c, result) == u.(r := u.r.(eax := result))
  {
  }

  /** The registers that pass arguments, as the routine left them: it finds its arguments in the slots where SAVE_ALL
      keeps them, and what it stores there is what RESTORE_ALL pops. */
  function Overwritten(u: User, s: seq<Word>, args: nat): User
    requires |s| == SIZE
  {
    var k := SIZE - 16;
    u.(r := u.r.(ebx := if args > 0 then s[k] else u.r.ebx,
                 ecx := if args > 1 then s[k + 1] else u.r.ecx,
                 edx := if args > 2 then s[k + 2] else u.r.edx,
                 esi := if args > 3 then s[k + 3] else u.r.esi,
                 edi := if args > 4 then s[k + 4] else u.r.edi))
  }

  /** Every system call, with up to five arguments in registers: whatever its body does, it returns to the handler, and
      the user gets back its own context with the result in eax and, of the registers that passed arguments, whatever
      the routine left in its parameters. */
  lemma SystemCallReturns(u: User, stack: seq<Word>, c: Cpu, args: nat, result: Word)
    requires |stack| == SIZE && args <= 5 && Body(EnterCall(u, stack), c, args)
    ensures var u' := Overwritten(u, c.stack, args);
      ReturnTo(c) == IN_HANDLER && ReturnUser(c, result) == u'.(r := u'.r.(eax := result))
  {
    Layout(u, stack);
    FrameOverwritten(EnterCall(u, stack).stack, c.stack, u, args);
    FrameReturns(Overwritten(u, c.stack, args), c, result);
  }

  /** A routine that leaves its parameters as they are -- one without parameters in particular -- changes nothing but
      eax. */
  lemma PureCallReturns(u: User, stack: seq<Word>, c: Cpu, result: Word)
    requires |stack| == SIZE && Body(EnterCall(u, stack), c, 0)
    ensures ReturnTo(c) == IN_HANDLER && ReturnUser(c, result) == u.(r := u.r.(eax := result))
  {
    SystemCallReturns(u, stack, c, 0, result);
  }

  lemma FrameOverwritten(s: seq<Word>, s': seq<Word>, u: User, args: nat)
    requires |s| == |s'| == SIZE && HandlerFrame(s, u) && args <= 5
    requires forall i :: SIZE - 17 <= i < SIZE && !(SIZE - 16 <= i < SIZE - 16 + args) ==> s'[i] == s[i]
    ensures HandlerFrame(s', Overwritten(u, s', args))
  {
  }

  /** clock_handler and keyboard_handler: their routines take no arguments and their result is not stored, so the
      interrupted program gets back exactly what it had. */
  lemma InterruptReturns(u: User, stack: seq<Word>, c: Cpu)
    requires |stack| == SIZE && Body(EnterCall(u, stack), c, 0)
    ensures ReturnTo(c) == IN_HANDLER && Iret(RestoreAll(Drop(Unwind(c)))) == u
  {
    Layout(u, stack);
    FrameKept(EnterCall(u, stack).stack, c.stack, u);
  }

  // ---------------------------------------------------------------- fork

  /** The child's stack: sys_fork's copy of the parent's, with ret_from_fork where the saved ebp was and a dummy ebp
      below. */
  function ChildStack(parent: Cpu): (s: seq<Word>)
    requires Ok(parent) && 1 <= parent.r.ebp < SIZE
    ensures |s| == SIZE
  {
    parent.stack[parent.r.ebp := RET_FROM_FORK][parent.r.ebp - 1 := 0]
  }

  /** inner_task_switch into a stack whose saved esp is `esp`: pop ebp, ret. */
  function SwitchIn(stack: seq<Word>, esp: nat, r: Regs): (c: Cpu)
    requires |stack| == SIZE && esp + 2 <= SIZE
    ensures Ok(c) && c.sp == esp + 2
  {
    Cpu(stack, esp + 2, r.(ebp := stack[esp]))
  }

  function SwitchTarget(stack: seq<Word>, esp: nat): Word
    requires |stack| == SIZE && esp + 2 <= SIZE
  {
    stack[esp + 1]
  }

  /** The child's first dispatch: the dummy ebp, ret_from_fork, and under its frame the parent's handler frame. */
  lemma ChildStart(u: User, parent: Cpu, dispatch: Regs)
    requires Ok(parent) && parent.r.ebp == SIZE - 18 && HandlerFrame(parent.stack, u)
    ensures var s, esp := ChildStack(parent), SIZE - 19;
      && SwitchTarget(s, esp) == RET_FROM_FORK && SwitchIn(s, esp, dispatch).r.ebp == 0
      && var first := Prologue(SwitchIn(s, esp, dispatch));
         first.r.ebp == SIZE - 18 && HandlerFrame(first.stack, u)
  {
    FrameKept(parent.stack, Prologue(SwitchIn(ChildStack(parent), SIZE - 19, dispatch)).stack, u);
  }

  /** Fork returns twice. From the same system call entry, and whatever the routines do below their frames: the parent's
      sys_fork returns to the handler and the user gets the child's PID; the child's first dispatch goes to
      ret_from_fork, which returns to the same point of the handler, and the user gets 0; all else is the parent's
      context at the call. */
  lemma ForkReturnsTwice(u: User, stack: seq<Word>, atFork: Cpu, atReturn: Cpu, dispatch: Regs, childEnd: Cpu,
      pid: Word)
    requires |stack| == SIZE
    requires Body(EnterCall(u, stack), atFork, 0)    // up to the copy of the stack
    requires Body(atFork, atReturn, 0)               // up to sys_fork's return
    requires var esp := SIZE - 19;                // kernel_esp of the child
      Body(Prologue(SwitchIn(ChildStack(atFork), esp, dispatch)), childEnd, 0)
    ensures ReturnTo(atReturn) == IN_HANDLER && ReturnUser(atReturn, pid) == u.(r := u.r.(eax := pid))
    ensures SwitchTarget(ChildStack(atFork), SIZE - 19) == RET_FROM_FORK
    ensures SwitchIn(ChildStack(atFork), SIZE - 19, dispatch).r.ebp == 0
    ensures ReturnTo(childEnd) == IN_HANDLER && ReturnUser(childEnd, 0) == u.(r := u.r.(eax := 0))
  {
    Layout(u, stack);
    FrameKept(EnterCall(u, stack).stack, atFork.stack, u);
    FrameKept(atFork.stack, atReturn.stack, u);
    FrameReturns(u, atReturn, pid);
    ChildStart(u, atFork, dispatch);
    FrameKept(Prologue(SwitchIn(ChildStack(atFork), SIZE - 19, dispatch)).stack, childEnd.stack, u);
    FrameReturns(u, childEnd, 0);
  }

  /** A task that switched away resumes exactly where it left: task_switch's saved esi, edi and ebx, and the frame
      pointer and return address of inner_task_switch, come back as long as nobody writes its stack. */
  lemma SwitchRoundTrip(c: Cpu, new_: Word, from: Word, inner: Cpu, r: Regs)
    requires Ok(c) && c.sp >= 6
    requires var pushed := Push(Push(Push(Push(c, c.r.esi), c.r.edi), c.r.ebx), new_);
      Body(Prologue(Call(pushed, from)), inner, 1)
    ensures var esp := inner.r.ebp;               // what inner_task_switch saves
      && 0 <= esp && esp + 6 <= SIZE
      && SwitchTarget(inner.stack, esp) == from
      && var back := Drop(SwitchIn(inner.stack, esp, r));   // the caller drops the argument
         && back.r.ebp == c.r.ebp && Top(back) == c.r.ebx && Top(Drop(back)) == c.r.edi
             && Top(Drop(Drop(back))) == c.r.esi
         && Drop(Drop(Drop(back))).sp == c.sp
  {
  }

  // ---------------------------------------------------------------- entry.S, word by word

  class Processor {
    const stack: array<Word>
    var sp: nat
    var r: Regs

    ghost predicate Valid()
      reads this
    {
      stack.Length == SIZE && sp <= SIZE
    }

    ghost function Abs(): (c: Cpu)
      reads this, stack
      requires Valid()
      ensures Ok(c)
    {
      Cpu(stack[..], sp, r)
    }

    constructor (regs: Regs)
      ensures Valid() && sp == SIZE && r == regs && fresh(stack)
    {
      stack := new Word[SIZE];
      sp := SIZE;
      r := regs;
    }

    method PushWord(w: Word)
      requires Valid() && sp > 0
      modifies this`sp, stack
      ensures Valid() && sp == old(sp) - 1 && stack[sp] == w
      ensures forall i :: 0 <= i < SIZE && i != sp ==> stack[i] == old(stack[i])
    {
      sp := sp - 1;
      stack[sp] := w;
    }

    method PopWord() returns (w: Word)
      requires Valid() && sp < SIZE
      modifies this`sp
      ensures Valid() && Abs() == Drop(old(Abs())) && w == Top(old(Abs()))
    {
      w := stack[sp];
      sp := sp + 1;
    }

    /** The pushes of SAVE_ALL down to eax. */
    method PushSegments()
      requires Valid() && sp >= 11
      modifies this`sp, stack
      ensures Valid() && sp == old(sp) - 5
      ensures stack[sp] == r.eax && stack[sp + 1] == r.ds && stack[sp + 2] == r.es && stack[sp + 3] == r.fs
        && stack[sp + 4] == r.gs
      ensures forall i :: 0 <= i < SIZE && (i < sp || old(sp) <= i) ==> stack[i] == old(stack[i])
    {
      PushWord(r.gs);
      PushWord(r.fs);
      PushWord(r.es);
      PushWord(r.ds);
      PushWord(r.eax);
    }

    method SaveRegisters()
      requires Valid() && sp >= 11
      modifies this, stack
      ensures Valid() && Abs() == SaveAll(old(Abs()))
    {
      ghost var before := Abs();
      PushSegments();
      PushWord(r.ebp);
      PushWord(r.edi);
      PushWord(r.esi);
      PushWord(r.edx);
      PushWord(r.ecx);
      PushWord(r.ebx);
      r := r.(edx := KERNEL_DS);
      r := r.(ds := r.edx);
      r := r.(es := r.edx);
      SavedIs(before, stack[..]);
    }

    method RestoreRegisters()
      requires Valid() && sp + 11 <= SIZE
      modifies this
      ensures Valid() && Abs() == RestoreAll(old(Abs()))
    {
      var w := PopWord();
      r := r.(ebx := w);
      w := PopWord();
      r := r.(ecx := w);
      w := PopWord();
      r := r.(edx := w);
      w := PopWord();
      r := r.(esi := w);
      w := PopWord();
      r := r.(edi := w);
      w := PopWord();
      r := r.(ebp := w);
      w := PopWord();
      r := r.(eax := w);
      w := PopWord();
      r := r.(ds := w);
      w := PopWord();
      r := r.(es := w);
      w := PopWord();
      r := r.(fs := w);
      w := PopWord();
      r := r.(gs := w);
    }

    /** From the return of the C routine to the iret. */
    method Finish() returns (u: User)
      requires Valid() && sp + 16 <= SIZE
      modifies this, stack
      ensures Valid() && u == Leave(old(Abs())) && sp == old(sp) + 16
    {
      stack[sp + 6] := r.eax;
      RestoreRegisters();
      u := User(r, stack[sp], stack[sp + 1], stack[sp + 2], stack[sp + 3], stack[sp + 4]);
      sp := sp + 5;
    }

    /** A system call number outside 0..40 goes to no routine: the caller gets -ENOSYS and everything else back. */
    method Reject(u: User) returns (u': User)
      requires Valid() && sp == SIZE - 5 && Abs() == Interrupt(u, Abs().stack)
      requires !(0 <= u.r.eax <= 40)
      modifies this, stack
      ensures Valid() && u' == u.(r := u.r.(eax := -ENOSYS)) && sp == SIZE
    {
      SaveRegisters();
      r := r.(eax := -ENOSYS);
      u' := Finish();
    }
  }
}
