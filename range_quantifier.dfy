/** The regular-expression range quantifier of
    src/re_compile/range_quantifier.rs: `{m}`, `{m,}` and `{m,n}`. */
module RangeQuantifierGrammar {
  import opened Parse
  import opened Combinators
  import Util

  /** What follows the lower bound. */
  datatype Bound =
    | NoUpper            // `Bound::None`: no comma
    | Upper(limit: nat)  // a comma and a number
    | Unbounded          // a comma and no number

  /** `upper == None` means unbounded. */
  datatype RangeQuantifier = RangeQuantifier(lower: nat, upper: Option<nat>)

  /** The closure of `upper_bound`: the comma decides, then the number. */
  function BoundOf(x: (Option<()>, Option<nat>)): Bound
  {
    match x
    case (None, _) => NoUpper
    case (Some(_), None) => Unbounded
    case (Some(_), Some(n)) => Upper(n)
  }

  /** `upper_bound()`: an optional comma, then an optional number. */
  function UpperBound(): (p: Parser<Bound>)
    ensures Total(p) && Sound(p)
  {
    Map(Pair(Optional(Util.MatchLiteral(",")), Optional(Util.Number())), BoundOf)
  }

  /** The closure of `range_quantifier`: without a comma the upper bound is
      the lower one. */
  function QuantifierOf(x: (nat, Bound)): RangeQuantifier
  {
    RangeQuantifier(
      x.0,
      match x.1
      case NoUpper => Some(x.0)
      case Upper(u) => Some(u)
      case Unbounded => None)
  }

  /** `range_quantifier()`: `{`, a number, the upper bound, `}`. */
  function RangeQuantifierParser(): (p: Parser<RangeQuantifier>)
    ensures Sound(p) && Progress(p)
  {
    Map(
      Left(
        Pair(Right(Util.MatchLiteral("{"), Util.Number()), UpperBound()),
        Util.MatchLiteral("}")),
      QuantifierOf)
  }

  predicate StartsNonDigit(t: string)
  {
    t == [] || !Util.IsNumeric(t[0])
  }

  // ---------------------------------------------------------------------
  // upper_bound

  lemma NumberOn(d: string, t: string)
    requires Util.IsUsizeLiteral(d) && StartsNonDigit(t)
    ensures Util.Number()(d + t) == Ok(t, Util.DecimalValue(d))
  {
    Util.NumberSplit(d, t);
  }

  lemma NumberOff(t: string)
    requires StartsNonDigit(t)
    ensures Util.Number()(t) == Err(t)
  {
    Util.NumberNeedsDigit(t);
  }

  lemma OptionalSome<A>(p: Parser<A>, s: string, r: string, v: A)
    requires p(s) == Ok(r, v)
    ensures Optional(p)(s) == Ok(r, Some(v))
  {
    OptionalOutcome(p, s);
  }

  lemma OptionalNone<A>(p: Parser<A>, s: string)
    requires p(s).Err?
    ensures Optional(p)(s) == Ok(s, None)
  {
    OptionalOutcome(p, s);
  }

  /** `upper_bound` from the outcomes of its two optional parts. */
  lemma UpperBoundSteps(s: string, m: string, c: Option<()>, r: string, n: Option<nat>)
    requires Optional(Util.MatchLiteral(","))(s) == Ok(m, c)
    requires Optional(Util.Number())(m) == Ok(r, n)
    ensures UpperBound()(s) == Ok(r, BoundOf((c, n)))
  {
    var o1, o2 := Optional(Util.MatchLiteral(",")), Optional(Util.Number());
    PairOutcome(o1, o2, s);
    MapOutcome(Pair(o1, o2), BoundOf, s);
  }

  /** No comma and no number: `Bound::None`, nothing consumed. */
  lemma UpperBoundAbsent(t: string)
    requires t == [] || (t[0] != ',' && !Util.IsNumeric(t[0]))
    ensures UpperBound()(t) == Ok(t, NoUpper)
  {
    OptionalNone(Util.MatchLiteral(","), t);
    NumberOff(t);
    OptionalNone(Util.Number(), t);
    UpperBoundSteps(t, t, None, t, None);
  }

  /** No comma, yet a number: it is consumed, and still `Bound::None`. */
  lemma UpperBoundWithoutComma(d: string, t: string)
    requires Util.IsUsizeLiteral(d) && StartsNonDigit(t)
    ensures UpperBound()(d + t) == Ok(t, NoUpper)
  {
    assert !("," <= d + t) by { assert (d + t)[0] == d[0]; }
    OptionalNone(Util.MatchLiteral(","), d + t);
    NumberOn(d, t);
    OptionalSome(Util.Number(), d + t, t, Util.DecimalValue(d));
    UpperBoundSteps(d + t, d + t, None, t, Some(Util.DecimalValue(d)));
  }

  /** A comma and no number: `Bound::Unbounded`, only the comma consumed. */
  lemma UpperBoundComma(t: string)
    requires StartsNonDigit(t)
    ensures UpperBound()("," + t) == Ok(t, Unbounded)
  {
    Util.MatchLiteralOn(",", t);
    OptionalSome(Util.MatchLiteral(","), "," + t, t, ());
    NumberOff(t);
    OptionalNone(Util.Number(), t);
    UpperBoundSteps("," + t, t, Some(()), t, None);
  }

  /** A comma and a number: `Bound::Upper` with that number. */
  lemma UpperBoundCommaNumber(d: string, t: string)
    requires Util.IsUsizeLiteral(d) && StartsNonDigit(t)
    ensures UpperBound()("," + d + t) == Ok(t, Upper(Util.DecimalValue(d)))
  {
    assert "," + d + t == "," + (d + t);
    Util.MatchLiteralOn(",", d + t);
    OptionalSome(Util.MatchLiteral(","), "," + d + t, d + t, ());
    NumberOn(d, t);
    OptionalSome(Util.Number(), d + t, t, Util.DecimalValue(d));
    UpperBoundSteps("," + d + t, d + t, Some(()), t, Some(Util.DecimalValue(d)));
  }

  // ---------------------------------------------------------------------
  // range_quantifier

  /** `{` and the lower bound. */
  lemma BraceNumber(d: string, t: string)
    requires Util.IsUsizeLiteral(d) && StartsNonDigit(t)
    ensures Right(Util.MatchLiteral("{"), Util.Number())("{" + d + t) == Ok(t, Util.DecimalValue(d))
  {
    assert "{" + d + t == "{" + (d + t);
    Util.MatchLiteralOn("{", d + t);
    NumberOn(d, t);
    PairOutcome(Util.MatchLiteral("{"), Util.Number(), "{" + d + t);
    RightOutcome(Util.MatchLiteral("{"), Util.Number(), "{" + d + t);
  }

  /** `range_quantifier` from the outcomes of the lower and upper bounds: it
      then stands or falls with the closing brace. */
  lemma QuantifierSteps(s: string, m: string, n: nat, u: string, b: Bound)
    requires Right(Util.MatchLiteral("{"), Util.Number())(s) == Ok(m, n)
    requires UpperBound()(m) == Ok(u, b)
    ensures "}" <= u ==> RangeQuantifierParser()(s) == Ok(u[1..], QuantifierOf((n, b)))
    ensures !("}" <= u) ==> RangeQuantifierParser()(s) == Err(u)
  {
    var lower := Right(Util.MatchLiteral("{"), Util.Number());
    var both := Pair(lower, UpperBound());
    PairOutcome(lower, UpperBound(), s);
    PairOutcome(both, Util.MatchLiteral("}"), s);
    LeftOutcome(both, Util.MatchLiteral("}"), s);
    MapOutcome(Left(both, Util.MatchLiteral("}")), QuantifierOf, s);
  }

  /** On success `{` opened the input, and the remainder is exactly what
      follows the closing `}`. */
  lemma QuantifierEndsAtBrace(s: string)
    requires RangeQuantifierParser()(s).Ok?
    ensures var r := RangeQuantifierParser()(s).rest;
      |r| + 3 <= |s| && s[0] == '{' && s[|s| - |r| - 1] == '}' && IsSuffix(r, s)
  {
    var lower := Right(Util.MatchLiteral("{"), Util.Number());
    QuantifierNeedsLower(s);
    var m, n := lower(s).rest, lower(s).value;
    var u, b := UpperBound()(m).rest, UpperBound()(m).value;
    QuantifierSteps(s, m, n, u, b);
    LowerShape(s);
    BraceTail(s, m, u);
  }

  lemma QuantifierNeedsLower(s: string)
    requires RangeQuantifierParser()(s).Ok?
    ensures Right(Util.MatchLiteral("{"), Util.Number())(s).Ok?
  {
    var lower := Right(Util.MatchLiteral("{"), Util.Number());
    var both := Pair(lower, UpperBound());
    MapOutcome(Left(both, Util.MatchLiteral("}")), QuantifierOf, s);
    LeftOutcome(both, Util.MatchLiteral("}"), s);
    PairOutcome(both, Util.MatchLiteral("}"), s);
    PairOutcome(lower, UpperBound(), s);
  }

  lemma LowerShape(s: string)
    requires Right(Util.MatchLiteral("{"), Util.Number())(s).Ok?
    ensures var m := Right(Util.MatchLiteral("{"), Util.Number())(s).rest;
      "{" <= s && IsSuffix(m, s) && |m| + 2 <= |s|
  {
    PairOutcome(Util.MatchLiteral("{"), Util.Number(), s);
    RightOutcome(Util.MatchLiteral("{"), Util.Number(), s);
    var t := Util.MatchLiteral("{")(s).rest;
    assert "{" <= s && t == s[1..];
    var num := Util.NumberParser().Parse(t);
    assert Util.Number()(t) == num;
    SuffixOfDrop(s, 1);
    SuffixTransitive(num.rest, t, s);
  }

  lemma BraceTail(s: string, m: string, u: string)
    requires "{" <= s && IsSuffix(m, s) && |m| + 2 <= |s|
    requires IsSuffix(u, m) && "}" <= u
    ensures |u[1..]| + 3 <= |s| && s[0] == '{' && s[|s| - |u[1..]| - 1] == '}' && IsSuffix(u[1..], s)
  {
    SuffixTransitive(u, m, s);
    SuffixOfDrop(u, 1);
    SuffixTransitive(u[1..], u, s);
    assert s[|s| - |u|] == u[0];
  }

  /** `{n}` is exactly `n` times: lower and upper are both `n`. */
  lemma ExactQuantifier(d: string, t: string)
    requires Util.IsUsizeLiteral(d)
    ensures var n := Util.DecimalValue(d);
      RangeQuantifierParser()("{" + d + "}" + t) == Ok(t, RangeQuantifier(n, Some(n)))
  {
    var n := Util.DecimalValue(d);
    assert "{" + d + "}" + t == "{" + d + ("}" + t);
    BraceNumber(d, "}" + t);
    UpperBoundAbsent("}" + t);
    assert ("}" + t)[1..] == t;
    QuantifierSteps("{" + d + "}" + t, "}" + t, n, "}" + t, NoUpper);
  }

  lemma OpenShape(d: string, t: string)
    ensures "{" + d + ",}" + t == "{" + d + ("," + ("}" + t))
  {
    assert ",}" == "," + "}";
  }

  /** `{n,}` is at least `n` times: no upper bound. */
  lemma OpenQuantifier(d: string, t: string)
    requires Util.IsUsizeLiteral(d)
    ensures var n := Util.DecimalValue(d);
      RangeQuantifierParser()("{" + d + ",}" + t) == Ok(t, RangeQuantifier(n, None))
  {
    var n := Util.DecimalValue(d);
    var u := "}" + t;
    var m := "," + u;
    var s := "{" + d + ",}" + t;
    OpenShape(d, t);
    BraceNumber(d, m);
    UpperBoundComma(u);
    assert u[1..] == t;
    assert "}" <= u;
    QuantifierSteps(s, m, n, u, Unbounded);
    assert RangeQuantifierParser()(s) == Ok(t, QuantifierOf((n, Unbounded)));
    assert QuantifierOf((n, Unbounded)) == RangeQuantifier(n, None);
  }

  /** `{m,n}`: lower `m`, upper `n`. */
  lemma BoundedQuantifier(d1: string, d2: string, t: string)
    requires Util.IsUsizeLiteral(d1) && Util.IsUsizeLiteral(d2)
    ensures RangeQuantifierParser()("{" + d1 + "," + d2 + "}" + t) ==
            Ok(t, RangeQuantifier(Util.DecimalValue(d1), Some(Util.DecimalValue(d2))))
  {
    var s := "{" + d1 + "," + d2 + "}" + t;
    var m := "," + d2 + ("}" + t);
    assert s == "{" + d1 + m;
    BraceNumber(d1, m);
    UpperBoundCommaNumber(d2, "}" + t);
    assert ("}" + t)[1..] == t;
    QuantifierSteps(s, m, Util.DecimalValue(d1), "}" + t, Upper(Util.DecimalValue(d2)));
  }

  /** Without the opening brace the failure is at the whole input. */
  lemma QuantifierNeedsBrace(s: string)
    requires s == [] || s[0] != '{'
    ensures RangeQuantifierParser()(s) == Err(s)
  {
  }

  /** No whitespace is skipped: a space after the comma leaves the bound
      open, and the missing `}` is reported at the space. */
  lemma QuantifierRejectsSpace(d: string, t: string)
    requires Util.IsUsizeLiteral(d)
    ensures RangeQuantifierParser()("{" + d + ", " + t) == Err(" " + t)
  {
    var s := "{" + d + ", " + t;
    assert s == "{" + d + ("," + (" " + t));
    BraceNumber(d, "," + (" " + t));
    UpperBoundComma(" " + t);
    QuantifierSteps(s, "," + (" " + t), Util.DecimalValue(d), " " + t, Unbounded);
  }

  /** A missing `}` after `{m,n` is reported at the end of the input. */
  lemma QuantifierDangling(d1: string, d2: string)
    requires Util.IsUsizeLiteral(d1) && Util.IsUsizeLiteral(d2)
    ensures RangeQuantifierParser()("{" + d1 + "," + d2) == Err([])
  {
    var s := "{" + d1 + "," + d2;
    var m := "," + d2;
    assert s == "{" + d1 + m;
    BraceNumber(d1, m);
    assert m + [] == m && d2 + [] == d2;
    UpperBoundCommaNumber(d2, []);
    QuantifierSteps(s, m, Util.DecimalValue(d1), [], Upper(Util.DecimalValue(d2)));
  }

  /** Any `usize` round-trips through its decimal rendering in `{n}`. */
  lemma ExactQuantifierOfNumber(n: nat, t: string)
    requires n <= Util.USIZE_MAX
    ensures RangeQuantifierParser()("{" + Util.Digits(n) + "}" + t) == Ok(t, RangeQuantifier(n, Some(n)))
  {
    Util.DigitsRoundTrip(n);
    ExactQuantifier(Util.Digits(n), t);
  }

  // ---------------------------------------------------------------------
  // The tests of range_quantifier.rs.

  lemma OneDigit(a: char)
    requires Util.IsNumeric(a)
    ensures Util.IsUsizeLiteral([a]) && Util.DecimalValue([a]) == Util.DigitValue(a)
  {
    assert [a][..0] == [];
  }

  lemma TwoDigits(a: char, b: char)
    requires Util.IsNumeric(a) && Util.IsNumeric(b)
    ensures Util.IsUsizeLiteral([a, b])
    ensures Util.DecimalValue([a, b]) == 10 * Util.DigitValue(a) + Util.DigitValue(b)
  {
    OneDigit(a);
    assert [a, b][..1] == [a];
  }

  lemma TestTrivial()
    ensures RangeQuantifierParser()("mhgsdkjafg") == Err("mhgsdkjafg")
  {
    QuantifierNeedsBrace("mhgsdkjafg");
  }

  lemma TestDanglingCurlyBrace()
    ensures RangeQuantifierParser()("{54,88") == Err("")
  {
    assert "{" + "54" + "," + "88" == "{54,88";
    TwoDigits('5', '4');
    TwoDigits('8', '8');
    QuantifierDangling("54", "88");
  }

  lemma TestSpaceAfterComma()
    ensures RangeQuantifierParser()("{54, 88}") == Err(" 88}")
  {
    assert "{" + "54" + ", " + "88}" == "{54, 88}";
    assert " " + "88}" == " 88}";
    TwoDigits('5', '4');
    QuantifierRejectsSpace("54", "88}");
  }

  lemma TestExactNumber()
    ensures RangeQuantifierParser()("{75}") == Ok("", RangeQuantifier(75, Some(75)))
  {
    assert "{" + "75" + "}" + "" == "{75}";
    TwoDigits('7', '5');
    ExactQuantifier("75", "");
  }

  lemma TestUnboundedRange()
    ensures RangeQuantifierParser()("{34,}") == Ok("", RangeQuantifier(34, None))
  {
    assert "{" + "34" + ",}" + "" == "{34,}";
    TwoDigits('3', '4');
    OpenQuantifier("34", "");
  }

  lemma TestExactRange()
    ensures RangeQuantifierParser()("{1,3}") == Ok("", RangeQuantifier(1, Some(3)))
  {
    assert "{" + "1" + "," + "3" + "}" + "" == "{1,3}";
    OneDigit('1');
    OneDigit('3');
    BoundedQuantifier("1", "3", "");
  }
}
