# safeword-ts: construction of tagged fixed-width unsigned integers

A Dafny model of the construction pipeline of safeword-ts. It turns an input into an
unsigned integer tagged with its width (8, 16, 32, 64, 128 or 256 bits). The input is a
string, a native number or an already-built BN (bn.js arbitrary-precision integer).
For every input bn.js accepts, construction returns a `SafeNumber` instead of throwing; a
native number of 2^53 or more makes bn.js throw (see "## Left out"). The result is either `WordsError(error)`
(`isError = true`) or `Just(value)` (`isError = false`).

The model is laid out as follows:

- `errors.dfy` (`Errors`): the closed taxonomy `ErrorKind`, with nine kinds and the data each carries:
  - `InvalidSize(expectedSize, actualSize)`;
  - `UnconstructableInteger(words, signed, decimal)`;
  - `NegativeUnsigned`, `FloatingPointNotSupported`, `TypeNotSupported` and `DivisionByZero`, which carry no data;
  - the arithmetic-only `Overflow`, `Underflow` and `InconsistentSize`.
- `bignum.dfy` (`BigNum`): the part of bn.js the pipeline relies on.
  - A BN is an `int`.
  - `BitLength` is the bit length of the magnitude.
  - `ParseBase10` reads an optional `-` followed by digits.
  - `ToDecimalString` prints like `toString(10)`.
- `types.dfy` (`Types`):
  - `Words`, the subset of widths {8, 16, 32, 64, 128, 256};
  - the `Integer` record `{words, signed, value}`;
  - `Constructable`, which is `Str(s)`, `Num(isInteger, integerValue)` or `Big(n)`;
  - `SafeNumber`, with `Bind` (`bindSafeNumber`) and `Fmap` (`fmapSafeNumber`) and their laws.
- `helpers.dfy` (`Helpers`):
  - the four validators;
  - the specializer and `constructInteger`;
  - the composed `SafeUintConstructor`;
  - the extractors.
- `constructors.dfy` (`Constructors`): `Uint8` … `Uint256`, and the properties every width shares.

A JavaScript number is abstracted as a flag saying whether it is a mathematical integer,
together with its integer value. `SafeUintConstructor` is written exactly as the source
composes it: `Bind`/`Fmap` over the fraction check, the BN parse, the size check, the
sign check and `constructInteger`. Its contract is an independent characterisation:
- which error comes first;
- when construction succeeds;
- the range of a successful value.

## Model

| member | source | states |
|---|---|---|
| Types.ExactlyOneCase | src/lib/types.ts:86-104 | a `SafeNumber` is the error case exactly when `isError` holds and the value case exactly when it does not, never both |
| Types.WrapperTags | src/lib/types.ts:90-102 | `wordsError(e)` has `isError = true` and holds `e`; `just(v)` has `isError = false` and holds `v` |
| Types.BindPropagatesError | src/lib/types.ts:106-109 | `bind(f)` returns an error unchanged, whatever `f` is |
| Types.BindLeftIdentity | src/lib/types.ts:99-109 | `bind(f)(just(x)) == f(x)` |
| Types.BindRightIdentity | src/lib/types.ts:99-109 | `bind(just)(m) == m` for every `m` |
| Types.BindAssociative | src/lib/types.ts:106-109 | chaining `bind(f)` then `bind(g)` equals one `bind` of `x => bind(g)(f(x))` |
| Types.FmapCases | src/lib/types.ts:111-114 | `fmap(f)` returns an error unchanged and maps `just(v)` to `just(f(v))` |
| Types.FmapIdentity | src/lib/types.ts:111-114 | `fmap(id)` is the identity |
| Types.FmapComposition | src/lib/types.ts:111-114 | `fmap(g . f) == fmap(g) . fmap(f)` |
| Types.FmapIsBindJust | src/lib/types.ts:99-114 | `fmap(f) == bind(just . f)` |
| BigNum.BitLengthIsLeast | src/lib/helpers.ts:72-73 | the bit length used by the size check is the least `k` with `abs(n) < 2^k` |
| BigNum.BitLengthFits | src/lib/helpers.ts:72-73 | `bitLength(n) <= w` exactly when `w >= 0` and `abs(n) < 2^w` |
| BigNum.BitLengthOfPow2 | src/lib/helpers.ts:72-73 | `2^k - 1` has bit length `k` and `2^k` has bit length `k + 1` |
| BigNum.ToDecimalRoundTrip | src/lib/helpers.ts:152 | the decimal string printed for an error is an optional `-` followed by digits, has no `.`, and parses back in base 10 to the same value |
| Helpers.FloatingPointCheck | src/lib/helpers.ts:46-56 | rejects a non-integral number and a string containing `.` with `FloatingPointNotSupported`; every other input, any BN included, comes back unchanged |
| Helpers.ConstructBN | src/lib/helpers.ts:60-65 | a BN is passed through unchanged, a number gives its integer value, and an unsigned digit string gives a non-negative value |
| Helpers.ConstructBNReadsDecimal | src/lib/helpers.ts:60-65 | a string is parsed in base 10: the decimal string of `n` is read back as `n` |
| Helpers.BitLengthCheck | src/lib/helpers.ts:69-74 | passes `n` unchanged exactly when `abs(n) < 2^w`; otherwise fails with `InvalidSize(w, bitLength(n))` |
| Helpers.BitLengthCheckBoundary | src/lib/helpers.ts:69-74 | `2^w - 1` passes the size check and `2^w` fails it with `InvalidSize(w, w + 1)` |
| Helpers.NegativeCheck | src/lib/helpers.ts:79-80 | fails with `NegativeUnsigned` exactly on negative values; zero and positive values pass unchanged |
| Helpers.SpecializeInteger | src/lib/helpers.ts:135-154 | returns the record unchanged exactly when its width is one of the six supported ones (either signedness); otherwise fails with `UnconstructableInteger(words, signed, decimal(value))` |
| Helpers.ConstructInteger | src/lib/helpers.ts:84-93 | tagging with a supported width never fails and yields `{words, signed, value}` |
| Helpers.SafeUintConstructor | src/lib/helpers.ts:103-117 | a fraction always gives `FloatingPointNotSupported`; otherwise a magnitude of `2^w` or more gives `InvalidSize(w, bitLength)`; otherwise a negative value gives `NegativeUnsigned`; it succeeds exactly when the input is fraction-free and `0 <= parsed < 2^w`, and then yields `{w, unsigned, parsed}` |
| Helpers.ExtractSafeNumber | src/lib/helpers.ts:129-130 | gives back the error exactly for an error result and the `Integer` for a value result |
| Helpers.SafeIntegerToBN | src/lib/helpers.ts:132-133 | keeps an error as it is and maps a value result to its BN |
| Helpers.LoudlyExtractSafeNumber | src/lib/helpers.ts:123-128 | on a value result, returns the BN that `safeIntegerToBN` wraps in `just`; the error case, which throws, is excluded by its precondition |
| Constructors.Uint8 | src/lib/constructors.ts:22-24 | succeeds exactly on fraction-free inputs with value in `[0, 256)`, with `words = 8`, unsigned, and the parsed value |
| Constructors.Uint16 | src/lib/constructors.ts:26-28 | succeeds exactly on fraction-free inputs with value in `[0, 2^16)`, with `words = 16`, unsigned, and the parsed value |
| Constructors.Uint32 | src/lib/constructors.ts:30-32 | succeeds exactly on fraction-free inputs with value in `[0, 2^32)`, with `words = 32`, unsigned, and the parsed value |
| Constructors.Uint64 | src/lib/constructors.ts:34-36 | succeeds exactly on fraction-free inputs with value in `[0, 2^64)`, with `words = 64`, unsigned, and the parsed value |
| Constructors.Uint128 | src/lib/constructors.ts:38-40 | succeeds exactly on fraction-free inputs with value in `[0, 2^128)`, with `words = 128`, unsigned, and the parsed value |
| Constructors.Uint256 | src/lib/constructors.ts:42-44 | succeeds exactly on fraction-free inputs with value in `[0, 2^256)`, with `words = 256`, unsigned, and the parsed value |
| Constructors.SuccessIsInRange | src/lib/helpers.ts:103-117 | every successful result is tagged with the requested width and is unsigned, its value lies in `[0, 2^w)`, and its bit length is at most `w` |
| Constructors.NeverNegative | src/lib/helpers.ts:103-117 | a negative parsed value never constructs |
| Constructors.ErrorsOfUnsignedPath | src/lib/helpers.ts:103-117 | the unsigned path fails only with `FloatingPointNotSupported`, `InvalidSize` or `NegativeUnsigned`, never with `UnconstructableInteger` |
| Constructors.DecimalPointRejected | src/lib/helpers.ts:52-54 | for every width, a string containing `.` fails with `FloatingPointNotSupported` |
| Constructors.SizeCheckedBeforeSign | src/lib/helpers.ts:107-117 | a negative value wider than `w` bits gives `InvalidSize`, not `NegativeUnsigned` |
| Constructors.MaxValueConstructs | src/lib/helpers.ts:103-117 | for every width, `2^w - 1` constructs when given as a BN or as its decimal string |
| Constructors.MaxNumberConstructs | src/lib/helpers.ts:103-117 | for widths up to 32, whose maximum a native number holds exactly, `2^w - 1` also constructs when given as an integral native number |
| Constructors.BeyondMaxFails | src/lib/helpers.ts:103-117 | for every width, `2^w` given as a BN or as its decimal string fails with `InvalidSize(w, w + 1)` |
| Constructors.MinusOneIsNegative | src/lib/helpers.ts:79-80 | for every width, `-1` as a number, a BN or the string `"-1"` fails with `NegativeUnsigned` |
| Constructors.ExtractAfterConstruct | src/lib/helpers.ts:123-133 | extracting a successful construction gives the record `{w, unsigned, parsed}` built directly, and the loud extractor gives the parsed value |
| Constructors.Uint8Scenarios | src/lib/constructors.ts:22-24 | `uint8("255")` is `{8, unsigned, 255}`, `uint8("256")` is `InvalidSize(8, 9)`, `uint8(-1)` is `NegativeUnsigned`, and `uint8("6.4")` is `FloatingPointNotSupported` |

## Left out

- lib/helpers.ts is an earlier variant of the helpers and is not part of this model. It relies on a `liftSafeNumber` imported from a module this model does not cover, and it patches the global function prototype.
- Signed constructors (`int8` … `int256`) do not exist in the modelled code. The specializer still accepts both signednesses, and `constructInteger` is only called unsigned.
- The partially applied helpers (`safeNumberFloatingPointCheck` and the like) are inlined as `Bind(F, ·)` / `Fmap(F, ·)` in `SafeUintConstructor`. Curried functions take all their arguments at once.
- The per-width result types (`Uint8` …) are the one `Integer` record. Their literal tags appear as `words = N` and `signed = false` in the contracts.
- `Integer.words` is a plain `int`, because the source builds the record by a type coercion before the specializer checks it. A record with an unsupported width is therefore representable, and it is rejected.
- ConstructBN: bn.js's lenient handling of strings is not modelled for strings other than an optional `-` followed by decimal digits. There, `ParseBase10` reads a non-digit character as the digit 0, which is a stand-in and not bn.js's behaviour.
- ConstructBN: a native number is its integer value. The floating-point behaviour of `Number.isInteger` is not modelled, nor the rounding of non-integral numbers by `new BN`, nor bn.js's refusal of numbers of 2^53 or more.
- The `null` pass-through of `constructBN` is outside the typed input union.
- Error message strings are not modelled.
- LoudlyExtractSafeNumber: the exception thrown on an error result is modelled as a precondition that excludes error results.
- `TypeNotSupported`, `Overflow`, `Underflow`, `InconsistentSize` and `DivisionByZero` exist only as constructors of `ErrorKind`. The arithmetic that raises them is not part of this model.
- test/index.test.ts exercises exports that are unrelated to the pipeline.
