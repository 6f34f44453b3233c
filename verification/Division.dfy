/** The 64/32-bit division of do_div, and the tick counter built on it. */
module Division {
  import opened Params

  datatype Divl = Fault | Quotient(q: int, r: int)

  /** The divl instruction: EDX:EAX by a 32-bit operand; it faults on a zero divisor and when the quotient needs more
      than 32 bits. */
  function HardwareDivide(high: nat, low: nat, base: nat): (d: Divl)
    requires high < WORD && low < WORD && base < WORD
  {
    if base == 0 then Fault
    else
      var n := high * WORD + low;
      if n / base >= WORD then Fault else Quotient(n / base, n % base)
  }

  /** do_div: the new value of n and the remainder, or a fault. */
  function DoDiv(n: nat, base: nat): (r: Divl)
    requires n < WORD * WORD && base < WORD
  {
    DivideHalves(n / WORD, n % WORD, base)
  }

  /** The body of the macro: reduce the upper half if there is one, then let the hardware divide the rest. */
  function DivideHalves(high: nat, low: nat, base: nat): (r: Divl)
    requires high < WORD && low < WORD && base < WORD
  {
    if high != 0 && base == 0 then Fault
    else
      var upper := if high != 0 then high % base else high;
      var high' := if high != 0 then high / base else high;
      Combine(high', HardwareDivide(upper, low, base))
  }

  /** The quotient halves put together. */
  function Combine(high: nat, d: Divl): Divl
  {
    match d
    case Fault => Fault
    case Quotient(q, m) => Quotient(high * WORD + q, m)
  }

  lemma Multiple(k: int, b: nat)
    ensures k >= 1 ==> k * b >= b
    ensures k <= -1 ==> k * b <= 0 - b
  {
  }

  /** Quotient and remainder are determined by the division equation. */
  lemma DivModUnique(n: nat, b: nat, q: nat, r: nat)
    requires b > 0 && n == q * b + r && r < b
    ensures n / b == q && n % b == r
  {
    EquationUnique(b, q, r, n / b, n % b);
  }

  lemma EquationUnique(b: nat, q: nat, r: nat, q': nat, r': nat)
    requires b > 0 && r < b && r' < b && q * b + r == q' * b + r'
    ensures q == q' && r == r'
  {
    Multiple(q - q', b);
    assert (q - q') * b == q * b - q' * b;
  }

  /** Reducing the upper half first makes the quotient of the hardware step fit. */
  lemma QuotientFits(upper: nat, low: nat, base: nat)
    requires upper < base < WORD && low < WORD
    ensures (upper * WORD + low) / base < WORD
  {
    var q := (upper * WORD + low) / base;
    Multiple(q - WORD + 1, base);
    assert q * base == (q - WORD + 1) * base + (WORD - 1) * base;
    assert upper * WORD + low == q * base + (upper * WORD + low) % base;
  }

  /** What is left for the hardware. */
  function Rest(high: nat, low: nat, base: nat): nat
    requires base > 0
  {
    high % base * WORD + low
  }

  lemma HalvesDivide(high: nat, low: nat, base: nat)
    requires high < WORD && low < WORD && 0 < base < WORD
    ensures DivideHalves(high, low, base) == Quotient(high / base * WORD + Rest(high, low, base) / base,
      Rest(high, low, base) % base)
  {
    ReducedHalf(high, base);
    LowerHalf(high / base, high % base, low, base);
  }

  lemma LowerHalf(high: nat, upper: nat, low: nat, base: nat)
    requires upper < base < WORD && low < WORD
    ensures Combine(high, HardwareDivide(upper, low, base))
         == Quotient(high * WORD + (upper * WORD + low) / base, (upper * WORD + low) % base)
  {
    QuotientFits(upper, low, base);
  }

  lemma HalvesCombine(high: nat, low: nat, base: nat)
    requires 0 < base
    ensures var n, m := high * WORD + low, Rest(high, low, base);
      n / base == high / base * WORD + m / base && n % base == m % base
  {
    var n, m := high * WORD + low, Rest(high, low, base);
    DivisionEquation(high, base);
    DivisionEquation(m, base);
    Recombine(n, base, high / base, high % base, low, m / base, m % base);
    DivModUnique(n, base, high / base * WORD + m / base, m % base);
  }

  /** do_div divides: for every 64-bit dividend and nonzero 32-bit base it does not fault and gives quotient and
      remainder. A zero base always faults. */
  lemma DoDivDivides(n: nat, base: nat)
    requires n < WORD * WORD && base < WORD
    ensures DoDiv(n, base) == if base == 0 then Fault else Quotient(n / base, n % base)
  {
    if base > 0 {
      HalvesDivide(n / WORD, n % WORD, base);
      HalvesCombine(n / WORD, n % WORD, base);
    }
  }

  lemma ReducedHalf(high: nat, base: nat)
    requires base > 0
    ensures 0 <= high % base < base && 0 <= high / base
    ensures high == 0 ==> high % base == high && high / base == high
  {
    DivModUnique(0, base, 0, 0);
  }

  lemma DivisionEquation(n: nat, b: nat)
    requires b > 0
    ensures n == (n / b) * b + n % b && n % b < b
  {
  }

  lemma Recombine(n: nat, base: nat, high: nat, upper: nat, low: nat, q: nat, r: nat)
    requires n == (high * base + upper) * WORD + low && upper * WORD + low == q * base + r
    ensures n == (high * WORD + q) * base + r
  {
    assert (high * base) * WORD == (high * WORD) * base;
    assert (high * WORD + q) * base == (high * WORD) * base + q * base;
  }

  const CYCLES_PER_TICK: nat := 109000

  /** get_ticks: the time-stamp counter divided, returned as a 32-bit word. */
  function GetTicks(high: nat, low: nat): (t: nat)
    requires high < WORD && low < WORD
    ensures t < WORD
  {
    match DoDiv(high * WORD + low, CYCLES_PER_TICK)
    case Fault => 0
    case Quotient(q, _) => q % WORD
  }

  /** The tick count is the cycle count over 109000 modulo 2^32, so it never goes back until it wraps. */
  lemma TicksAreCycles(high: nat, low: nat, high': nat, low': nat)
    requires high < WORD && low < WORD && high' < WORD && low' < WORD
    ensures GetTicks(high, low) == ((high * WORD + low) / CYCLES_PER_TICK) % WORD
    ensures high * WORD + low <= high' * WORD + low' && (high' * WORD + low') / CYCLES_PER_TICK < WORD
            ==> GetTicks(high, low) <= GetTicks(high', low')
  {
    DoDivDivides(high * WORD + low, CYCLES_PER_TICK);
    DoDivDivides(high' * WORD + low', CYCLES_PER_TICK);
  }
}
