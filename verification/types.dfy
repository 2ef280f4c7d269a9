/** The tagged integer, the accepted inputs, and the `SafeNumber` result type
    with its `bind` / `fmap` combinators. */
module Types {
  import opened Errors

  /** The closed set of supported widths. */
  predicate IsWords(w: int) {
    w == 8 || w == 16 || w == 32 || w == 64 || w == 128 || w == 256
  }

  type Words = w: nat | IsWords(w) witness 8

  /** A width/signedness-tagged value. `words` is a plain `int` because the
      record is built by coercion before the specializer checks its tag. */
  datatype Integer = Integer(words: int, signed: bool, value: int) {
    /** One of the twelve supported (width, signed) variants. */
    predicate IsTagged() {
      IsWords(words)
    }
  }

  /** The inputs a constructor accepts: a string, a native number (abstracted
      as whether it is a mathematical integer plus its integer value) or an
      already-built BN. */
  datatype Constructable =
    | Str(s: string)
    | Num(isInteger: bool, integerValue: int)
    | Big(n: int)

  /** Either an error or a value, never both; `IsError` is the discriminant. */
  datatype SafeNumber<+V> = WordsError(error: ErrorKind) | Just(value: V) {
    predicate IsError() {
      WordsError?
    }
  }

  /** Sequence a step after `m`; an error short-circuits and `f` is never applied. */
  function Bind<A, B>(f: A -> SafeNumber<B>, m: SafeNumber<A>): (r: SafeNumber<B>) {
    if m.IsError() then WordsError(m.error) else f(m.value)
  }

  /** Transform the success payload; an error passes through. */
  function Fmap<A, B>(f: A -> B, m: SafeNumber<A>): (r: SafeNumber<B>) {
    if m.IsError() then WordsError(m.error) else Just(f(m.value))
  }

  // ---------------------------------------------------------------------------
  // Laws

  /** `IsError` holds exactly for the error case, which carries its error, and
      fails exactly for the value case, which carries its value. */
  lemma ExactlyOneCase<V>(m: SafeNumber<V>)
    ensures m.IsError() <==> !m.Just?
    ensures m.IsError() ==> m == WordsError(m.error)
    ensures !m.IsError() ==> m == Just(m.value)
  {
  }

  lemma WrapperTags<V>(e: ErrorKind, v: V)
    ensures SafeNumber<V>.WordsError(e).IsError() && SafeNumber<V>.WordsError(e).error == e
    ensures !Just(v).IsError() && Just(v).value == v
  {
  }

  /** An error is returned unchanged and the continuation is irrelevant. */
  lemma BindPropagatesError<A, B>(f: A -> SafeNumber<B>, g: A -> SafeNumber<B>, e: ErrorKind)
    ensures Bind(f, WordsError(e)) == WordsError(e)
    ensures Bind(f, WordsError(e)) == Bind(g, WordsError(e))
  {
  }

  lemma BindLeftIdentity<A, B>(f: A -> SafeNumber<B>, x: A)
    ensures Bind(f, Just(x)) == f(x)
  {
  }

  lemma BindRightIdentity<A>(m: SafeNumber<A>)
    ensures Bind(x => Just(x), m) == m
  {
  }

  lemma BindAssociative<A, B, C>(f: A -> SafeNumber<B>, g: B -> SafeNumber<C>, m: SafeNumber<A>)
    ensures Bind(g, Bind(f, m)) == Bind(x => Bind(g, f(x)), m)
  {
  }

  lemma FmapCases<A, B>(f: A -> B, m: SafeNumber<A>)
    ensures m.IsError() ==> Fmap(f, m) == WordsError(m.error)
    ensures !m.IsError() ==> Fmap(f, m) == Just(f(m.value))
  {
  }

  lemma FmapIdentity<A>(m: SafeNumber<A>)
    ensures Fmap(x => x, m) == m
  {
  }

  lemma FmapComposition<A, B, C>(f: A -> B, g: B -> C, m: SafeNumber<A>)
    ensures Fmap(x => g(f(x)), m) == Fmap(g, Fmap(f, m))
  {
  }

  lemma FmapIsBindJust<A, B>(f: A -> B, m: SafeNumber<A>)
    ensures Fmap(f, m) == Bind(x => Just(f(x)), m)
  {
  }
}
