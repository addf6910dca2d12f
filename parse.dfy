/** The parse abstraction (src/parse.rs).

    A parser is any function from an input slice to a `Result`: either the
    unconsumed remainder together with a value, or the slice at which it
    failed.  Slices are modelled as character sequences; a remainder that is a
    "sub-slice" of the input is a suffix of it. */
module Parse {

  /** `ParseResult<'a, T> = Result<(&'a str, T), &'a str>` */
  datatype Result<+T> = Ok(rest: string, value: T) | Err(at: string)

  /** Any function from a slice to a result is a parser (the blanket impl). */
  type Parser<T> = string -> Result<T>

  /** `r` is a suffix of `s`: what is left after dropping a prefix of `s`. */
  predicate IsSuffix(r: string, s: string)
  {
    |r| <= |s| && s[|s| - |r|..] == r
  }

  /** Every successful run leaves a suffix of its input. */
  ghost predicate Sound<T>(p: Parser<T>)
  {
    forall s: string :: p(s).Ok? ==> IsSuffix(p(s).rest, s)
  }

  /** Every successful run consumes at least one character. */
  ghost predicate Progress<T>(p: Parser<T>)
  {
    forall s: string :: p(s).Ok? ==> |p(s).rest| < |s|
  }

  /** Every failed run reports exactly the slice it was given. */
  ghost predicate Backtracks<T>(p: Parser<T>)
  {
    forall s: string :: p(s).Err? ==> p(s).at == s
  }

  /** The parser never fails. */
  ghost predicate Total<T>(p: Parser<T>)
  {
    forall s: string :: p(s).Ok?
  }

  lemma SuffixTransitive(a: string, b: string, c: string)
    requires IsSuffix(a, b) && IsSuffix(b, c)
    ensures IsSuffix(a, c)
  {
    assert c[|c| - |a|..] == c[|c| - |b|..][|b| - |a|..];
  }

  lemma SuffixOfDrop(s: string, k: nat)
    requires k <= |s|
    ensures IsSuffix(s[k..], s)
  {
  }
}
