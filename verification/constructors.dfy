/** The per-width unsigned constructors, each the unsigned pipeline with its
    width fixed, and the properties every width shares. */
module Constructors {
  import opened Errors
  import opened BigNum
  import opened Types
  import opened Helpers

  /** Succeeds exactly on fraction-free inputs whose value lies in [0, 2^8). */
  function Uint8(value: Constructable): (r: SafeNumber<Integer>)
    ensures !r.IsError() <==> HasNoFraction(value) && 0 <= ConstructBN(value) < 256
    ensures !r.IsError() ==> r.value == Integer(8, false, ConstructBN(value))
  {
    WidthLimits();
    SafeUintConstructor(8, value)
  }

  /** Succeeds exactly on fraction-free inputs whose value lies in [0, 2^16). */
  function Uint16(value: Constructable): (r: SafeNumber<Integer>)
    ensures !r.IsError() <==> HasNoFraction(value) && 0 <= ConstructBN(value) < 65536
    ensures !r.IsError() ==> r.value == Integer(16, false, ConstructBN(value))
  {
    WidthLimits();
    SafeUintConstructor(16, value)
  }

  /** Succeeds exactly on fraction-free inputs whose value lies in [0, 2^32). */
  function Uint32(value: Constructable): (r: SafeNumber<Integer>)
    ensures !r.IsError() <==> HasNoFraction(value) && 0 <= ConstructBN(value) < 4294967296
    ensures !r.IsError() ==> r.value == Integer(32, false, ConstructBN(value))
  {
    WidthLimits();
    SafeUintConstructor(32, value)
  }

  /** Succeeds exactly on fraction-free inputs whose value lies in [0, 2^64). */
  function Uint64(value: Constructable): (r: SafeNumber<Integer>)
    ensures !r.IsError() <==> HasNoFraction(value) && 0 <= ConstructBN(value) < 18446744073709551616
    ensures !r.IsError() ==> r.value == Integer(64, false, ConstructBN(value))
  {
    WidthLimits();
    SafeUintConstructor(64, value)
  }

  /** Succeeds exactly on fraction-free inputs whose value lies in [0, 2^128). */
  function Uint128(value: Constructable): (r: SafeNumber<Integer>)
    ensures !r.IsError() <==> HasNoFraction(value) && 0 <= ConstructBN(value) < 340282366920938463463374607431768211456
    ensures !r.IsError() ==> r.value == Integer(128, false, ConstructBN(value))
  {
    WidthLimits();
    SafeUintConstructor(128, value)
  }

  /** Succeeds exactly on fraction-free inputs whose value lies in [0, 2^256). */
  function Uint256(value: Constructable): (r: SafeNumber<Integer>)
    ensures !r.IsError() <==> HasNoFraction(value) && 0 <= ConstructBN(value) < 115792089237316195423570985008687907853269984665640564039457584007913129639936
    ensures !r.IsError() ==> r.value == Integer(256, false, ConstructBN(value))
  {
    WidthLimits();
    SafeUintConstructor(256, value)
  }

  // ---------------------------------------------------------------------------
  // Properties shared by every width

  /** A successful result is an unsigned integer of the requested width whose
      value lies in [0, 2^words). */
  lemma SuccessIsInRange(words: Words, value: Constructable)
    requires !SafeUintConstructor(words, value).IsError()
    ensures var i := SafeUintConstructor(words, value).value;
      i.words == words && !i.signed && i.IsTagged() && 0 <= i.value < Pow2(words) && BitLength(i.value) <= words
  {
    BitLengthFits(SafeUintConstructor(words, value).value.value, words);
  }

  /** No negative value is ever accepted. */
  lemma NeverNegative(words: Words, value: Constructable)
    requires ConstructBN(value) < 0
    ensures SafeUintConstructor(words, value).IsError()
  {
  }

  /** Only the three construction errors of the unsigned path can arise. */
  lemma ErrorsOfUnsignedPath(words: Words, value: Constructable)
    requires SafeUintConstructor(words, value).IsError()
    ensures var e := SafeUintConstructor(words, value).error;
      e.FloatingPointNotSupported? || e.InvalidSize? || e.NegativeUnsigned?
  {
  }

  /** A string with a decimal point is rejected before it is parsed. */
  lemma DecimalPointRejected(words: Words, s: string)
    requires '.' in s
    ensures SafeUintConstructor(words, Str(s)) == WordsError(FloatingPointNotSupported)
  {
  }

  /** A negative value too wide for the width reports its size, not its sign. */
  lemma SizeCheckedBeforeSign(words: Words, value: Constructable)
    requires HasNoFraction(value) && ConstructBN(value) < 0 && BitLength(ConstructBN(value)) > words
    ensures SafeUintConstructor(words, value) == WordsError(InvalidSize(words, BitLength(ConstructBN(value))))
  {
    BitLengthFits(ConstructBN(value), words);
  }

  /** 2^words - 1 is built from a BN and from its decimal string. */
  lemma {:induction false} MaxValueConstructs(words: Words)
    ensures var max := Pow2(words) - 1;
      && SafeUintConstructor(words, Big(max)) == Just(Integer(words, false, max))
      && SafeUintConstructor(words, Str(ToDecimalString(max))) == Just(Integer(words, false, max))
  {
    ToDecimalRoundTrip(Pow2(words) - 1);
  }

  /** For the widths whose maximum a native number holds exactly (below 2^53),
      2^words - 1 is also built from an integral native number. */
  lemma {:induction false} MaxNumberConstructs(words: Words)
    requires words <= 32
    ensures SafeUintConstructor(words, Num(true, Pow2(words) - 1)) == Just(Integer(words, false, Pow2(words) - 1))
  {
    var max := Pow2(words) - 1;
    assert ConstructBN(Num(true, max)) == max;
  }

  /** 2^words is one too many and is reported with bit length words + 1. */
  lemma BeyondMaxFails(words: Words)
    ensures var over := Pow2(words);
      && SafeUintConstructor(words, Big(over)) == WordsError(InvalidSize(words, words + 1))
      && SafeUintConstructor(words, Str(ToDecimalString(over))) == WordsError(InvalidSize(words, words + 1))
  {
    BitLengthOfPow2(words);
    ToDecimalRoundTrip(Pow2(words));
  }

  /** -1 fits every width, so it is rejected for its sign. */
  lemma MinusOneIsNegative(words: Words)
    ensures SafeUintConstructor(words, Num(true, -1)) == WordsError(NegativeUnsigned)
    ensures SafeUintConstructor(words, Big(-1)) == WordsError(NegativeUnsigned)
    ensures SafeUintConstructor(words, Str("-1")) == WordsError(NegativeUnsigned)
  {
    assert IsWords(words);
    Pow2Monotone(1, words);
    assert ParseBase10("-1") == -1 by {
      assert "-1"[1..] == "1";
    }
  }

  /** Extracting a successful construction gives the directly built record. */
  lemma ExtractAfterConstruct(words: Words, value: Constructable)
    requires !SafeUintConstructor(words, value).IsError()
    ensures ExtractSafeNumber(SafeUintConstructor(words, value)) == Value(Integer(words, false, ConstructBN(value)))
    ensures LoudlyExtractSafeNumber(SafeUintConstructor(words, value)) == ConstructBN(value)
  {
  }

  lemma ParseExamples()
    ensures ParseBase10("255") == 255
    ensures ParseBase10("256") == 256
  {
    assert "255"[..2] == "25" && "256"[..2] == "25";
    assert "25"[..1] == "2" && "2"[..0] == "";
  }

  /** The concrete scenarios for eight bits. */
  lemma Uint8Scenarios()
    ensures Uint8(Str("255")) == Just(Integer(8, false, 255))
    ensures Uint8(Str("256")) == WordsError(InvalidSize(8, 9))
    ensures Uint8(Num(true, -1)) == WordsError(NegativeUnsigned)
    ensures Uint8(Str("6.4")) == WordsError(FloatingPointNotSupported)
  {
    ParseExamples();
    WidthLimits();
    BitLengthOfPow2(8);
    MinusOneIsNegative(8);
    assert '.' in "6.4" by { assert "6.4"[1] == '.'; }
  }
}
