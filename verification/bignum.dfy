/** The part of the arbitrary-precision integer library the pipeline relies on:
    a BN is an unbounded `int`, together with its bit length, base-10 parsing
    and base-10 printing. */
module BigNum {

  function Pow2(k: nat): (r: nat)
    ensures r >= 1
  {
    if k == 0 then 1 else 2 * Pow2(k - 1)
  }

  function Abs(n: int): (r: nat) {
    if n < 0 then -n else n
  }

  /** Number of bits needed for a natural number (0 needs none). */
  function NatBitLength(n: nat): (r: nat)
    decreases n
  {
    if n == 0 then 0 else 1 + NatBitLength(n / 2)
  }

  /** Bit length of the magnitude, the sign is not counted. */
  function BitLength(n: int): (r: nat) {
    NatBitLength(Abs(n))
  }

  lemma {:induction false} Pow2Monotone(a: nat, b: nat)
    requires a <= b
    ensures Pow2(a) <= Pow2(b)
    decreases b
  {
    if a < b {
      Pow2Monotone(a, b - 1);
    }
  }

  lemma {:induction false} NatBitLengthIsLeast(n: nat)
    ensures n < Pow2(NatBitLength(n))
    ensures NatBitLength(n) > 0 ==> Pow2(NatBitLength(n) - 1) <= n
    decreases n
  {
    if n > 0 {
      NatBitLengthIsLeast(n / 2);
    }
  }

  /** BitLength(n) is the least k with |n| < 2^k. */
  lemma BitLengthIsLeast(n: int)
    ensures Abs(n) < Pow2(BitLength(n))
    ensures forall k: nat :: Abs(n) < Pow2(k) ==> BitLength(n) <= k
  {
    NatBitLengthIsLeast(Abs(n));
    forall k: nat | Abs(n) < Pow2(k)
      ensures BitLength(n) <= k
    {
      if BitLength(n) > k {
        Pow2Monotone(k, BitLength(n) - 1);
      }
    }
  }

  /** A value fits in w bits exactly when its magnitude is below 2^w; no
      value fits in a negative number of bits. */
  lemma BitLengthFits(n: int, w: int)
    ensures BitLength(n) <= w <==> w >= 0 && Abs(n) < Pow2(w)
  {
    BitLengthIsLeast(n);
    if BitLength(n) <= w {
      Pow2Monotone(BitLength(n), w);
    }
  }

  lemma {:induction false} Pow2Add(a: nat, b: nat)
    ensures Pow2(a + b) == Pow2(a) * Pow2(b)
    decreases a
  {
    if a > 0 {
      Pow2Add(a - 1, b);
    }
  }

  /** The limits of the six supported widths. */
  lemma WidthLimits()
    ensures Pow2(8) == 256
    ensures Pow2(16) == 65536
    ensures Pow2(32) == 4294967296
    ensures Pow2(64) == 18446744073709551616
    ensures Pow2(128) == 340282366920938463463374607431768211456
    ensures Pow2(256) == 115792089237316195423570985008687907853269984665640564039457584007913129639936
  {
    Pow2Add(1, 1);
    assert Pow2(2) == 2 * 2 == 4;
    Pow2Add(2, 2);
    assert Pow2(4) == 4 * 4 == 16;
    Pow2Add(4, 4);
    assert Pow2(8) == 16 * 16 == 256;
    Pow2Add(8, 8);
    assert Pow2(16) == 256 * 256 == 65536;
    Pow2Add(16, 16);
    assert Pow2(32) == 65536 * 65536 == 4294967296;
    Pow2Add(32, 32);
    assert Pow2(64) == 4294967296 * 4294967296 == 18446744073709551616;
    Pow2Add(64, 64);
    assert Pow2(128) == 18446744073709551616 * 18446744073709551616 == 340282366920938463463374607431768211456;
    Pow2Add(128, 128);
    assert Pow2(256) == 340282366920938463463374607431768211456 * 340282366920938463463374607431768211456 == 115792089237316195423570985008687907853269984665640564039457584007913129639936;
  }

  /** 2^k - 1 is the widest value of k bits and 2^k the narrowest of k + 1. */
  lemma {:induction false} BitLengthOfPow2(k: nat)
    ensures BitLength(Pow2(k)) == k + 1
    ensures BitLength(Pow2(k) - 1) == k
  {
    var hi, lo := Pow2(k), Pow2(k) - 1;
    BitLengthIsLeast(hi);
    BitLengthIsLeast(lo);
    assert BitLength(hi) <= k + 1 by { assert Abs(hi) < Pow2(k + 1); }
    if BitLength(hi) <= k {
      Pow2Monotone(BitLength(hi), k);
      assert false;
    }
    assert BitLength(lo) <= k by { assert Abs(lo) < Pow2(k); }
    if BitLength(lo) < k {
      Pow2Monotone(BitLength(lo), k - 1);
      assert false;
    }
  }

  // ---------------------------------------------------------------------------
  // Base-10 text

  predicate IsDigit(c: char) {
    '0' <= c <= '9'
  }

  function DigitValue(c: char): (d: nat)
    ensures d < 10
  {
    if IsDigit(c) then c as int - '0' as int else 0
  }

  function DigitChar(d: nat): (c: char)
    requires d < 10
    ensures IsDigit(c) && DigitValue(c) == d
  {
    ('0' as int + d) as char
  }

  /** Value of a digit string read most significant digit first. */
  function DigitsValue(s: string): (r: nat)
    decreases |s|
  {
    if |s| == 0 then 0 else 10 * DigitsValue(s[..|s| - 1]) + DigitValue(s[|s| - 1])
  }

  /** Base-10 parse. On an optional '-' followed by digits this is bn.js's
      reading. Any other string gets an invented value: a non-digit character
      counts as the digit 0 (bn.js 4 reads letters as digit values 10-35 and
      bn.js 5 throws), so such strings are not faithfully modelled. */
  function ParseBase10(s: string): (r: int) {
    if |s| > 0 && s[0] == '-' then -(DigitsValue(s[1..]) as int) else DigitsValue(s)
  }

  predicate AllDigits(s: string) {
    forall i :: 0 <= i < |s| ==> IsDigit(s[i])
  }

  /** An optional '-' followed by at least one digit. */
  predicate IsDecimalString(s: string) {
    if |s| > 0 && s[0] == '-' then |s| > 1 && AllDigits(s[1..]) else |s| > 0 && AllDigits(s)
  }

  function NatToDecimal(n: nat): (r: string)
    decreases n
  {
    if n < 10 then [DigitChar(n)] else NatToDecimal(n / 10) + [DigitChar(n % 10)]
  }

  /** The value's decimal string, as `toString(10)` prints it. */
  function ToDecimalString(n: int): (r: string) {
    if n < 0 then "-" + NatToDecimal(-n) else NatToDecimal(n)
  }

  lemma {:induction false} NatToDecimalRoundTrip(n: nat)
    ensures |NatToDecimal(n)| > 0
    ensures AllDigits(NatToDecimal(n))
    ensures DigitsValue(NatToDecimal(n)) == n
    decreases n
  {
    if n >= 10 {
      NatToDecimalRoundTrip(n / 10);
      var s := NatToDecimal(n);
      assert s[..|s| - 1] == NatToDecimal(n / 10);
    }
  }

  /** Printing then parsing gives back the value, and the printed form is a
      well-formed decimal string (in particular it has no '.'). */
  lemma ToDecimalRoundTrip(n: int)
    ensures IsDecimalString(ToDecimalString(n))
    ensures '.' !in ToDecimalString(n)
    ensures ParseBase10(ToDecimalString(n)) == n
  {
    NatToDecimalRoundTrip(Abs(n));
    var s := ToDecimalString(n);
    if n < 0 {
      assert s[1..] == NatToDecimal(-n);
    }
  }
}
