/** itoa and strlen of the user library. */
module Libc {

  /** The digits of a, least significant first: what the division loop leaves in the buffer. */
  function Digits(a: nat): seq<char>
  {
    if a == 0 then [] else [DigitChar(a % 10)] + Digits(a / 10)
  }

  function DigitChar(d: nat): char
    requires d < 10
  {
    d as char + '0'
  }

  function Reversed(s: seq<char>): (r: seq<char>)
    ensures |r| == |s| && forall i :: 0 <= i < |s| ==> r[i] == s[|s| - 1 - i]
  {
    if s == [] then [] else Reversed(s[1..]) + [s[0]]
  }

  /** What itoa writes: decimal for a > 0, "0" for 0, and -- there is no sign handling -- nothing for a negative a. */
  function Decimal(a: int): seq<char>
  {
    if a < 0 then [] else if a == 0 then ['0'] else Reversed(Digits(a))
  }

  /** The number a digit string denotes. */
  function Parse(s: seq<char>): int
  {
    if s == [] then 0 else Parse(s[..|s| - 1]) * 10 + (s[|s| - 1] as int - '0' as int)
  }

  ghost predicate AllDigits(s: seq<char>)
  {
    forall i :: 0 <= i < |s| ==> '0' <= s[i] <= '9'
  }

  /** One more digit at the low end. */
  lemma ParseMore(c: char, rest: seq<char>)
    ensures Parse(Reversed([c] + rest)) == Parse(Reversed(rest)) * 10 + (c as int - '0' as int)
  {
    var d := [c] + rest;
    assert d[1..] == rest;
    assert Reversed(d) == Reversed(rest) + [c];
    assert Reversed(d)[..|d| - 1] == Reversed(rest);
  }

  lemma {:induction false} DigitsAreCanonical(a: nat)
    requires a > 0
    ensures AllDigits(Digits(a)) && Digits(a) != [] && Digits(a)[|Digits(a)| - 1] != '0'
  {
    if a >= 10 { DigitsAreCanonical(a / 10); }
  }

  lemma {:induction false} DigitsDenote(a: nat)
    ensures Parse(Reversed(Digits(a))) == a
  {
    if a > 0 {
      DigitsDenote(a / 10);
      ParseMore(DigitChar(a % 10), Digits(a / 10));
    }
  }

  /** Round trip and canonicity: every non-negative number is written as digits without a leading zero (but "0"), and
      reading them back gives the number. */
  lemma DecimalRoundTrip(a: nat)
    ensures Parse(Decimal(a)) == a && AllDigits(Decimal(a)) && |Decimal(a)| >= 1
    ensures a > 0 ==> Decimal(a)[0] != '0'
  {
    DigitsDenote(a);
    if a > 0 { DigitsAreCanonical(a); } else { assert ['0'][..0] == []; }
  }

  function Pow10(n: nat): nat { if n == 0 then 1 else 10 * Pow10(n - 1) }

  /** The length is the number of decimal digits. */
  lemma {:induction false} DigitCount(a: nat)
    requires a > 0
    ensures |Digits(a)| >= 1 && Pow10(|Digits(a)| - 1) <= a < Pow10(|Digits(a)|)
  {
    if a >= 10 {
      DigitCount(a / 10);
      assert |Digits(a)| == |Digits(a / 10)| + 1;
    } else {
      assert Digits(a / 10) == [];
    }
  }

  lemma {:induction false} Pow10Grows(m: nat, n: nat)
    requires m <= n
    ensures 1 <= Pow10(m) <= Pow10(n)
  {
    if m < n { Pow10Grows(m, n - 1); } else if m > 0 { Pow10Grows(m - 1, m - 1); }
  }

  /** A 32-bit int needs at most ten digits. */
  lemma AtMostTenDigits(a: nat)
    requires a < 0x8000_0000
    ensures |Decimal(a)| <= 10
  {
    if a > 0 {
      DigitCount(a);
      assert Pow10(10) == 10_000_000_000 by {
        assert Pow10(2) == 100 && Pow10(4) == 10_000 && Pow10(6) == 1_000_000 && Pow10(8) == 100_000_000;
      }
      if |Digits(a)| > 10 { Pow10Grows(10, |Digits(a)| - 1); }
    }
  }

  /** itoa's digit loop. */
  method WriteDigits(a: nat, b: array<char>) returns (i: nat)
    requires a > 0 && |Digits(a)| < b.Length
    modifies b
    ensures i == |Digits(a)| && b[..i] == Digits(a)
    ensures forall k :: i <= k < b.Length ==> b[k] == old(b[k])
  {
    var rest := a;
    i := 0;
    while rest > 0
      invariant i + |Digits(rest)| == |Digits(a)|
      invariant b[..i] == Digits(a)[..i] && Digits(rest) == Digits(a)[i..]
      invariant forall k :: i <= k < b.Length ==> b[k] == old(b[k])
    {
      assert Digits(a)[i] == Digits(a)[i..][0] && Digits(a)[i + 1..] == Digits(a)[i..][1..];
      b[i] := DigitChar(rest % 10);
      rest := rest / 10;
      i := i + 1;
    }
  }

  /** itoa's in-place reversal. */
  method ReversePrefix(b: array<char>, n: nat)
    requires n <= b.Length
    modifies b
    ensures b[..n] == Reversed(old(b[..n]))
    ensures forall k :: n <= k < b.Length ==> b[k] == old(b[k])
  {
    for k := 0 to n / 2
      invariant forall i :: 0 <= i < k ==> b[i] == old(b[n - 1 - i]) && b[n - 1 - i] == old(b[i])
      invariant forall i :: k <= i < n - k ==> b[i] == old(b[i])
      invariant forall i :: n <= i < b.Length ==> b[i] == old(b[i])
    {
      var t := b[k];
      b[k] := b[n - k - 1];
      b[n - k - 1] := t;
    }
  }

  /** Terminates the string. */
  method Terminate(b: array<char>, n: nat)
    requires n < b.Length
    modifies b
    ensures b[n] == '\0' && b[..n] == old(b[..n]) && forall k :: n < k < b.Length ==> b[k] == old(b[k])
  {
    b[n] := '\0';
  }

  /** itoa: the decimal string, NUL-terminated, and nothing else in the buffer changed. */
  method Itoa(a: int, b: array<char>)
    requires |Decimal(a)| < b.Length
    modifies b
    ensures var n := |Decimal(a)|;
      b[..n] == Decimal(a) && b[n] == '\0' && forall k :: n < k < b.Length ==> b[k] == old(b[k])
  {
    if a == 0 {
      b[0] := '0';
      b[1] := '\0';
      assert b[..1] == ['0'];
      return;
    }
    var i := 0;
    if a > 0 {
      i := WriteDigits(a, b);
      ReversePrefix(b, i);
    }
    assert b[..i] == Decimal(a);
    Terminate(b, i);
  }

  /** strlen */
  method Strlen(a: array<char>) returns (i: nat)
    requires exists k :: 0 <= k < a.Length && a[k] == '\0'
    ensures i < a.Length && a[i] == '\0' && forall k :: 0 <= k < i ==> a[k] != '\0'
  {
    i := 0;
    while a[i] != '\0'
      invariant i < a.Length && forall k :: 0 <= k < i ==> a[k] != '\0'
      decreases a.Length - i
    {
      i := i + 1;
    }
  }

  /** strlen of what itoa wrote is its number of digits. */
  method Print(a: nat, b: array<char>) returns (n: nat)
    requires |Decimal(a)| < b.Length
    modifies b
    ensures n == |Decimal(a)| && Parse(b[..n]) == a
  {
    DecimalRoundTrip(a);
    Itoa(a, b);
    ghost var d := Decimal(a);
    assert forall k :: 0 <= k < |d| ==> b[k] == b[..|d|][k] == d[k] != '\0';
    assert b[|d|] == '\0';
    n := Strlen(b);
  }
}
