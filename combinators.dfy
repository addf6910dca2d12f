/** The combinators of src/combinators.rs, and the ones that the grammars
    import from it without it being defined there (`filter`, `either`,
    `and_then`, `optional`), each given only the meaning its call sites need. */
module Combinators {
  import opened Parse

  datatype Option<+T> = None | Some(value: T)

  /** `map(parser, map_fn)`: transform the value, keep the remainder. */
  function Map<A, B>(p: Parser<A>, f: A -> B): (q: Parser<B>)
    ensures Sound(p) ==> Sound(q)
    ensures Progress(p) ==> Progress(q)
    ensures Backtracks(p) ==> Backtracks(q)
  {
    (s: string) =>
      match p(s)
      case Ok(r, v) => Ok(r, f(v))
      case Err(e) => Err(e)
  }

  /** `pair(parser1, parser2)`: run `p2` on what `p1` leaves.  A failure of
      `p2` is reported at `p1`'s remainder, not at the original input. */
  function Pair<A, B>(p1: Parser<A>, p2: Parser<B>): (q: Parser<(A, B)>)
    ensures Sound(p1) && Sound(p2) ==> Sound(q)
    ensures Progress(p1) && Sound(p2) ==> Progress(q)
    ensures Sound(p1) && Progress(p2) ==> Progress(q)
  {
    (s: string) =>
      match p1(s)
      case Err(e) => Err(e)
      case Ok(mid, v1) =>
        match p2(mid)
        case Err(e) => Err(e)
        case Ok(r, v2) => Ok(r, (v1, v2))
  }

  /** `left(parser1, parser2)`: the pair, keeping the first value. */
  function Left<A, B>(p1: Parser<A>, p2: Parser<B>): (q: Parser<A>)
    ensures Sound(p1) && Sound(p2) ==> Sound(q)
    ensures Progress(p1) && Sound(p2) ==> Progress(q)
    ensures Sound(p1) && Progress(p2) ==> Progress(q)
  {
    Map(Pair(p1, p2), (x: (A, B)) => x.0)
  }

  /** `right(parser1, parser2)`: the pair, keeping the second value. */
  function Right<A, B>(p1: Parser<A>, p2: Parser<B>): (q: Parser<B>)
    ensures Sound(p1) && Sound(p2) ==> Sound(q)
    ensures Progress(p1) && Sound(p2) ==> Progress(q)
    ensures Sound(p1) && Progress(p2) ==> Progress(q)
  {
    Map(Pair(p1, p2), (x: (A, B)) => x.1)
  }

  /** The meaning of the `while let` loop of `zero_or_more`: apply `p` as long
      as it succeeds, collecting the values in order.  `Progress(p)` is what
      makes the loop end. */
  function Many<A>(p: Parser<A>, s: string): (r: Result<seq<A>>)
    requires Progress(p)
    ensures r.Ok? && |r.rest| <= |s|
    decreases |s|
  {
    match p(s)
    case Err(_) => Ok(s, [])
    case Ok(next, v) =>
      var more := Many(p, next);
      Ok(more.rest, [v] + more.value)
  }

  /** `zero_or_more(parser)` */
  function ZeroOrMore<A>(p: Parser<A>): (q: Parser<seq<A>>)
    requires Progress(p)
    ensures Total(q)
    ensures Sound(p) ==> Sound(q)
  {
    ManySound(p);
    (s: string) => Many(p, s)
  }

  /** `one_or_more(parser)`: a first success, then `zero_or_more`.  If the
      first attempt fails, the failure is reported at the original input. */
  function OneOrMore<A>(p: Parser<A>): (q: Parser<seq<A>>)
    requires Progress(p)
    ensures Backtracks(q)
    ensures Progress(q)
    ensures Sound(p) ==> Sound(q)
  {
    ManySound(p);
    ManyShrinks(p);
    (s: string) =>
      match p(s)
      case Err(_) => Err(s)
      case Ok(next, v) =>
        var more := Many(p, next);
        Ok(more.rest, [v] + more.value)
  }

  /** `filter(parser, predicate)`: a value the predicate rejects counts as a
      failure at the original input. */
  function Filter<A>(p: Parser<A>, pred: A -> bool): (q: Parser<A>)
    ensures Backtracks(q)
    ensures Sound(p) ==> Sound(q)
    ensures Progress(p) ==> Progress(q)
  {
    (s: string) =>
      match p(s)
      case Ok(r, v) => if pred(v) then Ok(r, v) else Err(s)
      case Err(_) => Err(s)
  }

  /** `either(parser1, parser2)`: ordered choice, retried on the same input. */
  function Either<A>(p1: Parser<A>, p2: Parser<A>): (q: Parser<A>)
    ensures Sound(p1) && Sound(p2) ==> Sound(q)
    ensures Progress(p1) && Progress(p2) ==> Progress(q)
    ensures Backtracks(p2) ==> Backtracks(q)
  {
    (s: string) =>
      match p1(s)
      case Ok(r, v) => Ok(r, v)
      case Err(_) => p2(s)
  }

  /** `and_then(parser, f)`: bind; the parser built from the first value runs
      on the first remainder. */
  function AndThen<A(!new), B>(p: Parser<A>, f: A -> Parser<B>): (q: Parser<B>)
    ensures Sound(p) && (forall v :: Sound(f(v))) ==> Sound(q)
  {
    (s: string) =>
      match p(s)
      case Err(e) => Err(e)
      case Ok(r, v) => f(v)(r)
  }

  /** `optional(parser)`: never fails; `None` leaves the input untouched. */
  function Optional<A>(p: Parser<A>): (q: Parser<Option<A>>)
    ensures Total(q)
    ensures Sound(p) ==> Sound(q)
  {
    (s: string) =>
      match p(s)
      case Ok(r, v) => Ok(r, Some(v))
      case Err(_) => Ok(s, None)
  }

  lemma {:induction false} ManySound<A>(p: Parser<A>)
    requires Progress(p)
    ensures forall s :: Many(p, s).Ok?
    ensures Sound(p) ==> forall s :: IsSuffix(Many(p, s).rest, s)
  {
    forall s ensures Many(p, s).Ok? && (Sound(p) ==> IsSuffix(Many(p, s).rest, s)) {
      ManySoundAt(p, s);
    }
  }

  lemma {:induction false} ManySoundAt<A>(p: Parser<A>, s: string)
    requires Progress(p)
    ensures Many(p, s).Ok?
    ensures |Many(p, s).rest| <= |s|
    ensures Sound(p) ==> IsSuffix(Many(p, s).rest, s)
    decreases |s|
  {
    match p(s)
    case Err(_) =>
    case Ok(next, v) =>
      ManySoundAt(p, next);
      if Sound(p) {
        SuffixTransitive(Many(p, next).rest, next, s);
      }
  }

  lemma ManyShrinks<A>(p: Parser<A>)
    requires Progress(p)
    ensures forall s :: p(s).Ok? ==> |Many(p, p(s).rest).rest| < |s|
  {
    forall s | p(s).Ok? ensures |Many(p, p(s).rest).rest| < |s| {
      ManySoundAt(p, p(s).rest);
    }
  }

  // ---------------------------------------------------------------------
  // The accumulating loops of `zero_or_more` and `one_or_more`.

  /** The `while let` loop of `zero_or_more`: push each value, advance `rest`. */
  method ZeroOrMoreLoop<A>(p: Parser<A>, input: string) returns (r: Result<seq<A>>)
    requires Progress(p)
    ensures r == ZeroOrMore(p)(input)
  {
    var result: seq<A> := [];
    var rest := input;
    var step := p(rest);
    assert result + Many(p, rest).value == Many(p, rest).value;
    while step.Ok?
      invariant step == p(rest)
      invariant Many(p, input) == Ok(Many(p, rest).rest, result + Many(p, rest).value)
      decreases |rest|
    {
      ghost var before, old_result := rest, result;
      rest := step.rest;
      result := result + [step.value];
      step := p(rest);
      assert Many(p, before).value == [p(before).value] + Many(p, rest).value;
      assert result + Many(p, rest).value == old_result + Many(p, before).value;
    }
    assert Many(p, rest) == Ok(rest, []);
    assert result + [] == result;
    r := Ok(rest, result);
  }

  /** `one_or_more`: one attempt that must succeed, then the same loop. */
  method OneOrMoreLoop<A>(p: Parser<A>, input: string) returns (r: Result<seq<A>>)
    requires Progress(p)
    ensures r == OneOrMore(p)(input)
  {
    var result: seq<A> := [];
    var rest := input;
    var step := p(rest);
    if step.Ok? {
      rest := step.rest;
      result := result + [step.value];
    } else {
      return Err(rest);
    }
    step := p(rest);
    assert OneOrMore(p)(input).value == result + Many(p, rest).value;
    while step.Ok?
      invariant step == p(rest)
      invariant OneOrMore(p)(input) == Ok(Many(p, rest).rest, result + Many(p, rest).value)
      decreases |rest|
    {
      ghost var before, old_result := rest, result;
      rest := step.rest;
      result := result + [step.value];
      step := p(rest);
      assert Many(p, before).value == [p(before).value] + Many(p, rest).value;
      assert result + Many(p, rest).value == old_result + Many(p, before).value;
    }
    assert Many(p, rest) == Ok(rest, []);
    assert result + [] == result;
    r := Ok(rest, result);
  }

  // ---------------------------------------------------------------------
  // What repetition means.

  /** Applying `p` `|vs|` times in a row from `s` yields the values `vs`, in
      order, and leaves `rest`. */
  ghost predicate Repeats<A>(p: Parser<A>, s: string, vs: seq<A>, rest: string)
    decreases |vs|
  {
    if vs == [] then rest == s
    else p(s).Ok? && p(s).value == vs[0] && Repeats(p, p(s).rest, vs[1..], rest)
  }

  /** `zero_or_more` never fails: it returns the values of the consecutive
      successes of `p`, in order, and stops where `p` fails. */
  lemma {:induction false} ZeroOrMoreGreedy<A>(p: Parser<A>, s: string)
    requires Progress(p)
    ensures ZeroOrMore(p)(s).Ok?
    ensures Repeats(p, s, ZeroOrMore(p)(s).value, ZeroOrMore(p)(s).rest)
    ensures p(ZeroOrMore(p)(s).rest).Err?
    decreases |s|
  {
    match p(s)
    case Err(_) =>
    case Ok(next, v) =>
      ZeroOrMoreGreedy(p, next);
      var vs := ZeroOrMore(p)(s).value;
      assert vs == [v] + ZeroOrMore(p)(next).value;
      assert vs[1..] == ZeroOrMore(p)(next).value;
  }

  /** ... and that outcome is the only one: any run of successes that ends
      where `p` fails is exactly what `zero_or_more` returns. */
  lemma {:induction false} ZeroOrMoreUnique<A>(p: Parser<A>, s: string, vs: seq<A>, rest: string)
    requires Progress(p)
    requires Repeats(p, s, vs, rest) && p(rest).Err?
    ensures ZeroOrMore(p)(s) == Ok(rest, vs)
    decreases |vs|
  {
    if vs != [] {
      ZeroOrMoreUnique(p, p(s).rest, vs[1..], rest);
      assert vs == [vs[0]] + vs[1..];
    }
  }

  /** `zero_or_more` after one more success of `p`. */
  lemma ZeroOrMoreStep<A>(p: Parser<A>, s: string)
    requires Progress(p) && p(s).Ok?
    ensures ZeroOrMore(p)(s) == Ok(ZeroOrMore(p)(p(s).rest).rest, [p(s).value] + ZeroOrMore(p)(p(s).rest).value)
  {
  }

  /** `zero_or_more` where `p` fails at once: no values, input untouched. */
  lemma ZeroOrMoreStop<A>(p: Parser<A>, s: string)
    requires Progress(p) && p(s).Err?
    ensures ZeroOrMore(p)(s) == Ok(s, [])
  {
  }

  /** `one_or_more` fails, at the original input, exactly when the first
      attempt fails; otherwise it is that value followed by `zero_or_more`. */
  lemma OneOrMoreOutcome<A>(p: Parser<A>, s: string)
    requires Progress(p)
    ensures OneOrMore(p)(s).Err? <==> p(s).Err?
    ensures OneOrMore(p)(s).Err? ==> OneOrMore(p)(s).at == s
    ensures p(s).Ok? ==>
              OneOrMore(p)(s) ==
              Ok(ZeroOrMore(p)(p(s).rest).rest, [p(s).value] + ZeroOrMore(p)(p(s).rest).value)
    ensures OneOrMore(p)(s).Ok? ==> |OneOrMore(p)(s).value| >= 1
  {
  }

  /** A successful `one_or_more` is a run of at least one success that ends
      where `p` fails. */
  lemma OneOrMoreGreedy<A>(p: Parser<A>, s: string)
    requires Progress(p) && OneOrMore(p)(s).Ok?
    ensures Repeats(p, s, OneOrMore(p)(s).value, OneOrMore(p)(s).rest)
    ensures p(OneOrMore(p)(s).rest).Err?
  {
    ZeroOrMoreGreedy(p, p(s).rest);
    var vs := OneOrMore(p)(s).value;
    assert vs[1..] == ZeroOrMore(p)(p(s).rest).value;
  }

  // ---------------------------------------------------------------------
  // How each combinator passes on success and failure.

  /** `map` keeps the remainder and propagates the failure slice unchanged. */
  lemma MapOutcome<A, B>(p: Parser<A>, f: A -> B, s: string)
    ensures Map(p, f)(s).Ok? <==> p(s).Ok?
    ensures p(s).Ok? ==> Map(p, f)(s) == Ok(p(s).rest, f(p(s).value))
    ensures p(s).Err? ==> Map(p, f)(s) == Err(p(s).at)
  {
  }

  /** The identity law of `map`. */
  lemma MapIdentity<A>(p: Parser<A>, s: string)
    ensures Map(p, (x: A) => x)(s) == p(s)
  {
  }

  /** `pair` succeeds iff `p1` succeeds and `p2` succeeds on its remainder; a
      failure of `p2` is reported at `p1`'s remainder. */
  lemma PairOutcome<A, B>(p1: Parser<A>, p2: Parser<B>, s: string)
    ensures Pair(p1, p2)(s).Ok? <==> p1(s).Ok? && p2(p1(s).rest).Ok?
    ensures p1(s).Err? ==> Pair(p1, p2)(s) == Err(p1(s).at)
    ensures p1(s).Ok? && p2(p1(s).rest).Err? ==> Pair(p1, p2)(s) == Err(p2(p1(s).rest).at)
    ensures p1(s).Ok? && p2(p1(s).rest).Ok? ==>
      Pair(p1, p2)(s) == Ok(p2(p1(s).rest).rest, (p1(s).value, p2(p1(s).rest).value))
  {
  }

  /** When `p2` fails with its own input, `pair` reports `p1`'s remainder. */
  lemma PairFailsAfterFirst<A, B>(p1: Parser<A>, p2: Parser<B>, s: string)
    requires Backtracks(p2)
    requires p1(s).Ok? && p2(p1(s).rest).Err?
    ensures Pair(p1, p2)(s) == Err(p1(s).rest)
  {
  }

  /** `left` is `pair` projected on the first value: same remainder, same
      failure slice. */
  lemma LeftOutcome<A, B>(p1: Parser<A>, p2: Parser<B>, s: string)
    ensures Left(p1, p2)(s).Ok? <==> Pair(p1, p2)(s).Ok?
    ensures Pair(p1, p2)(s).Ok? ==>
      Left(p1, p2)(s) == Ok(Pair(p1, p2)(s).rest, Pair(p1, p2)(s).value.0)
    ensures Pair(p1, p2)(s).Err? ==> Left(p1, p2)(s) == Err(Pair(p1, p2)(s).at)
  {
  }

  /** `right` is `pair` projected on the second value. */
  lemma RightOutcome<A, B>(p1: Parser<A>, p2: Parser<B>, s: string)
    ensures Right(p1, p2)(s).Ok? <==> Pair(p1, p2)(s).Ok?
    ensures Pair(p1, p2)(s).Ok? ==>
      Right(p1, p2)(s) == Ok(Pair(p1, p2)(s).rest, Pair(p1, p2)(s).value.1)
    ensures Pair(p1, p2)(s).Err? ==> Right(p1, p2)(s) == Err(Pair(p1, p2)(s).at)
  {
  }

  /** `filter` succeeds iff `p` does and its value passes; otherwise the
      failure is at the original input. */
  lemma FilterOutcome<A>(p: Parser<A>, pred: A -> bool, s: string)
    ensures Filter(p, pred)(s).Ok? <==> p(s).Ok? && pred(p(s).value)
    ensures Filter(p, pred)(s).Ok? ==> Filter(p, pred)(s) == p(s)
    ensures Filter(p, pred)(s).Err? ==> Filter(p, pred)(s).at == s
  {
  }

  /** `either` is ordered choice: a success of `p1` wins whatever `p2` does;
      otherwise `p2` runs on the same input. */
  lemma EitherOutcome<A>(p1: Parser<A>, p2: Parser<A>, s: string)
    ensures p1(s).Ok? ==> Either(p1, p2)(s) == p1(s)
    ensures p1(s).Err? ==> Either(p1, p2)(s) == p2(s)
  {
  }

  /** `and_then` runs the parser built from the first value on the first
      remainder, and propagates a first failure unchanged. */
  lemma AndThenOutcome<A(!new), B>(p: Parser<A>, f: A -> Parser<B>, s: string)
    ensures p(s).Ok? ==> AndThen(p, f)(s) == f(p(s).value)(p(s).rest)
    ensures p(s).Err? ==> AndThen(p, f)(s) == Err(p(s).at)
  {
  }

  /** `optional` turns a failure into `None` at the untouched input. */
  lemma OptionalOutcome<A>(p: Parser<A>, s: string)
    ensures p(s).Ok? ==> Optional(p)(s) == Ok(p(s).rest, Some(p(s).value))
    ensures p(s).Err? ==> Optional(p)(s) == Ok(s, None)
  {
  }
}
