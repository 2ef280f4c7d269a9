/** The validators, the specializer, the composed unsigned constructor and the
    extractors. Every stage returns a `SafeNumber` and the stages are chained
    with `Bind` and `Fmap`. */
module Helpers {
  import opened Errors
  import opened BigNum
  import opened Types

  // ---------------------------------------------------------------------------
  // Validators

  /** The input carries no fraction: a native number that is a mathematical
      integer, a string without a decimal point, or any BN (a BN is taken to
      be integral by construction and is not inspected). */
  predicate HasNoFraction(x: Constructable) {
    match x
    case Num(isInteger, _) => isInteger
    case Str(s) => '.' !in s
    case Big(_) => true
  }

  function FloatingPointCheck(num: Constructable): (r: SafeNumber<Constructable>)
    ensures r == if HasNoFraction(num) then Just(num) else WordsError(FloatingPointNotSupported)
  {
    if num.Num? && !num.isInteger then WordsError(FloatingPointNotSupported)
    else if num.Str? && '.' in num.s then WordsError(FloatingPointNotSupported)
    else Just(num)
  }

  /** Strings and native numbers are read in base 10; a BN is passed through. */
  function ConstructBN(value: Constructable): (r: int)
    ensures value.Big? ==> r == value.n
    ensures value.Num? ==> r == value.integerValue
    ensures value.Str? && IsDecimalString(value.s) && value.s[0] != '-' ==> r >= 0
  {
    match value
    case Str(s) => ParseBase10(s)
    case Num(_, v) => v
    case Big(n) => n
  }

  /** A value's decimal string is read back as that value. */
  lemma ConstructBNReadsDecimal(n: int)
    ensures ConstructBN(Str(ToDecimalString(n))) == n
    ensures ConstructBN(Num(true, n)) == n && ConstructBN(Big(n)) == n
  {
    ToDecimalRoundTrip(n);
  }

  /** 2^words - 1 passes the size check and 2^words fails it with bit length words + 1. */
  lemma {:induction false} BitLengthCheckBoundary(words: nat)
    ensures BitLengthCheck(words, Pow2(words) - 1) == Just(Pow2(words) - 1)
    ensures BitLengthCheck(words, Pow2(words)) == WordsError(InvalidSize(words, words + 1))
  {
    BitLengthOfPow2(words);
  }

  /** Passes exactly the values whose magnitude is below 2^words, unchanged;
      the error reports the requested width and the actual bit length. */
  function BitLengthCheck(words: int, num: int): (r: SafeNumber<int>)
    ensures !r.IsError() <==> words >= 0 && Abs(num) < Pow2(words)
    ensures !r.IsError() ==> r.value == num
    ensures r.IsError() ==> r.error == InvalidSize(words, BitLength(num))
  {
    BitLengthFits(num, words);
    if BitLength(num) > words then WordsError(InvalidSize(words, BitLength(num))) else Just(num)
  }

  function NegativeCheck(num: int): (r: SafeNumber<int>)
    ensures !r.IsError() <==> num >= 0
    ensures !r.IsError() ==> r.value == num
    ensures r.IsError() ==> r.error == NegativeUnsigned
  {
    if num < 0 then WordsError(NegativeUnsigned) else Just(num)
  }

  // ---------------------------------------------------------------------------
  // Specializer

  /** Accepts the twelve supported (width, signed) variants unchanged; any other
      tag is reported with the value's decimal string. */
  function SpecializeInteger(candidate: Integer): (r: SafeNumber<Integer>)
    ensures !r.IsError() <==> candidate.IsTagged()
    ensures !r.IsError() ==> r.value == candidate
    ensures r.IsError() ==> r.error == UnconstructableInteger(candidate.words, candidate.signed, ToDecimalString(candidate.value))
  {
    var words, signed := candidate.words, candidate.signed;
    if words == 8 && signed then Just(candidate)
    else if words == 8 && !signed then Just(candidate)
    else if words == 16 && signed then Just(candidate)
    else if words == 16 && !signed then Just(candidate)
    else if words == 32 && signed then Just(candidate)
    else if words == 32 && !signed then Just(candidate)
    else if words == 64 && signed then Just(candidate)
    else if words == 64 && !signed then Just(candidate)
    else if words == 128 && signed then Just(candidate)
    else if words == 128 && !signed then Just(candidate)
    else if words == 256 && signed then Just(candidate)
    else if words == 256 && !signed then Just(candidate)
    else WordsError(UnconstructableInteger(words, signed, ToDecimalString(candidate.value)))
  }

  /** Tagging with a supported width never fails. */
  function ConstructInteger(words: Words, signed: bool, value: int): (r: SafeNumber<Integer>)
    ensures r == Just(Integer(words, signed, value))
  {
    SpecializeInteger(Integer(words, signed, value))
  }

  // ---------------------------------------------------------------------------
  // The unsigned constructor

  /** Fraction check, parse, size check, sign check, then tagging. The first
      failing stage decides the error: a fraction wins over a size error, and
      a size error over a negative sign. */
  function SafeUintConstructor(words: Words, value: Constructable): (r: SafeNumber<Integer>)
    ensures !HasNoFraction(value) ==> r == WordsError(FloatingPointNotSupported)
    ensures HasNoFraction(value) && Pow2(words) <= Abs(ConstructBN(value)) ==>
              r == WordsError(InvalidSize(words, BitLength(ConstructBN(value))))
    ensures HasNoFraction(value) && Abs(ConstructBN(value)) < Pow2(words) && ConstructBN(value) < 0 ==>
              r == WordsError(NegativeUnsigned)
    ensures !r.IsError() <==> HasNoFraction(value) && 0 <= ConstructBN(value) < Pow2(words)
    ensures !r.IsError() ==> r.value == Integer(words, false, ConstructBN(value))
  {
    Bind((n: int) => ConstructInteger(words, false, n),
      Bind(NegativeCheck,
        Bind((n: int) => BitLengthCheck(words, n),
          Fmap(ConstructBN,
            Bind(FloatingPointCheck, Just(value))))))
  }

  // ---------------------------------------------------------------------------
  // Extractors

  /** The untagged union of an error and an integer handed back by `ExtractSafeNumber`. */
  datatype ErrorOrInteger = Failure(error: ErrorKind) | Value(integer: Integer)

  function ExtractSafeNumber(safeNumber: SafeNumber<Integer>): (r: ErrorOrInteger)
    ensures r.Failure? <==> safeNumber.IsError()
    ensures r.Failure? ==> r.error == safeNumber.error
    ensures r.Value? ==> r.integer == safeNumber.value
  {
    if safeNumber.IsError() then Failure(safeNumber.error) else Value(safeNumber.value)
  }

  function IntegerToBN(x: Integer): (r: int) {
    x.value
  }

  /** The BN payload of a result, or its error. */
  function SafeIntegerToBN(safeNumber: SafeNumber<Integer>): (r: SafeNumber<int>)
    ensures r.IsError() <==> safeNumber.IsError()
    ensures r.IsError() ==> r.error == safeNumber.error
    ensures !r.IsError() ==> r.value == safeNumber.value.value
  {
    Fmap(IntegerToBN, safeNumber)
  }

  /** The BN payload of a successful result; an error would be thrown, so the
      caller must rule it out. */
  function LoudlyExtractSafeNumber(safeNumber: SafeNumber<Integer>): (r: int)
    requires !safeNumber.IsError()
    ensures SafeIntegerToBN(safeNumber) == Just(r)
    ensures ExtractSafeNumber(safeNumber) == Value(safeNumber.value) && r == safeNumber.value.value
  {
    safeNumber.value.value
  }
}
