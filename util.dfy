/** The primitive parsers of src/util.rs (`match_literal`, `PrefixParser`,
    `NumberParser`, `parse_range_quantifier`), and the small primitives that
    the grammars import from `util` without it being defined there
    (`any_char`, `number`, `space_some`, `whitespace_wrap`), each given only
    the meaning its call sites need. */
module Util {
  import opened Parse
  import opened Combinators

  // ---------------------------------------------------------------------
  // Character classes.  Rust's `char::is_alphabetic` and friends consult
  // the Unicode tables; these are their ASCII restrictions.

  predicate IsAlphabetic(c: char) { 'a' <= c <= 'z' || 'A' <= c <= 'Z' }

  predicate IsNumeric(c: char) { '0' <= c <= '9' }

  predicate IsAlphanumeric(c: char) { IsAlphabetic(c) || IsNumeric(c) }

  predicate IsWhitespace(c: char)
  {
    c == ' ' || c == '\t' || c == '\n' || c == '\r' || c == '\U{0B}' || c == '\U{0C}'
  }

  /** A run made only of whitespace characters. */
  predicate AllWhitespace(ws: string)
  {
    forall i :: 0 <= i < |ws| ==> IsWhitespace(ws[i])
  }

  // ---------------------------------------------------------------------
  // Literal prefixes.

  /** `match_literal(expected)`: the first `|expected|` characters of the
      input must be exactly `expected`. */
  function MatchLiteral(expected: string): (p: Parser<()>)
    ensures forall s :: p(s).Ok? <==> expected <= s
    ensures forall s :: p(s).Ok? ==> p(s).rest == s[|expected|..]
    ensures Backtracks(p) && Sound(p)
    ensures |expected| > 0 ==> Progress(p)
  {
    (s: string) =>
      if |expected| <= |s| && s[..|expected|] == expected then Ok(s[|expected|..], ())
      else Err(s)
  }

  /** The literal followed by anything: consumed exactly. */
  lemma MatchLiteralOn(expected: string, t: string)
    ensures MatchLiteral(expected)(expected + t) == Ok(t, ())
  {
    assert (expected + t)[|expected|..] == t;
  }

  /** `PrefixParser(prefix)`, a struct whose `parse` is `strip_prefix`. */
  datatype PrefixParser = PrefixParser(prefix: string)
  {
    function Parse(data: string): (r: Result<()>)
      ensures r.Ok? <==> prefix <= data
      ensures r.Ok? ==> prefix + r.rest == data
      ensures r.Err? ==> r.at == data
    {
      if prefix <= data then Ok(data[|prefix|..], ()) else Err(data)
    }
  }

  /** `PrefixParser(p)` and `match_literal(p)` agree on every input. */
  lemma PrefixParserIsMatchLiteral(prefix: string, s: string)
    ensures PrefixParser(prefix).Parse(s) == MatchLiteral(prefix)(s)
  {
  }

  // ---------------------------------------------------------------------
  // Decimal numbers.

  /** The largest `usize` (a 64-bit target). */
  const USIZE_MAX: nat := 0xFFFF_FFFF_FFFF_FFFF

  predicate AllNumeric(d: string)
  {
    forall i :: 0 <= i < |d| ==> IsNumeric(d[i])
  }

  /** The position `find(|c| !c.is_numeric())` reports, or the length. */
  function DigitRun(s: string): (n: nat)
    ensures n <= |s|
    ensures AllNumeric(s[..n])
    ensures n == |s| || !IsNumeric(s[n])
  {
    if s == [] || !IsNumeric(s[0]) then 0
    else
      var n := 1 + DigitRun(s[1..]);
      assert s[..n] == [s[0]] + s[1..][..n - 1];
      n
  }

  function DigitValue(c: char): (v: nat)
    requires IsNumeric(c)
    ensures v < 10
  {
    c as int - '0' as int
  }

  /** The value of a string of decimal digits, most significant first. */
  function DecimalValue(d: string): nat
    requires AllNumeric(d)
  {
    if d == [] then 0 else DecimalValue(d[..|d| - 1]) * 10 + DigitValue(d[|d| - 1])
  }

  /** A valid `usize` literal: at least one digit, no overflow. */
  predicate IsUsizeLiteral(d: string)
  {
    |d| > 0 && AllNumeric(d) && DecimalValue(d) <= USIZE_MAX
  }

  /** `NumberParser`: split at the first non-numeric character and parse the
      digits before it as a `usize`; on any failure, report the whole input. */
  datatype NumberParser = NumberParser
  {
    function Parse(data: string): (r: Result<nat>)
      ensures r.Err? ==> r.at == data
      ensures r.Ok? ==> IsSuffix(r.rest, data) && |r.rest| < |data|
      ensures r.Ok? ==> r.rest == [] || !IsNumeric(r.rest[0])
      ensures r.Ok? ==> IsUsizeLiteral(data[..|data| - |r.rest|])
      ensures r.Ok? ==> r.value == DecimalValue(data[..|data| - |r.rest|])
    {
      var split := DigitRun(data);
      var num, rest := data[..split], data[split..];
      if |num| == 0 || DecimalValue(num) > USIZE_MAX then Err(data)
      else Ok(rest, DecimalValue(num))
    }
  }

  /** The characters of the decimal rendering of `n`, without leading zeros. */
  function DigitChar(v: nat): (c: char)
    requires v < 10
    ensures IsNumeric(c) && DigitValue(c) == v
  {
    ('0' as int + v) as char
  }

  function Digits(n: nat): (d: string)
    ensures |d| > 0 && AllNumeric(d)
  {
    if n < 10 then [DigitChar(n)] else Digits(n / 10) + [DigitChar(n % 10)]
  }

  /** Rendering a number and reading it back gives the number. */
  lemma {:induction false} DigitsRoundTrip(n: nat)
    ensures DecimalValue(Digits(n)) == n
  {
    if n >= 10 {
      DigitsRoundTrip(n / 10);
      var d := Digits(n);
      assert d[..|d| - 1] == Digits(n / 10);
    }
  }

  lemma {:induction false} DigitRunOfConcat(d: string, t: string)
    requires AllNumeric(d)
    requires t == [] || !IsNumeric(t[0])
    ensures DigitRun(d + t) == |d|
  {
    if d != [] {
      assert (d + t)[1..] == d[1..] + t;
      DigitRunOfConcat(d[1..], t);
    }
  }

  /** The number parser reads exactly the digits in front of the first
      non-digit. */
  lemma NumberSplit(d: string, t: string)
    requires IsUsizeLiteral(d)
    requires t == [] || !IsNumeric(t[0])
    ensures NumberParser().Parse(d + t) == Ok(t, DecimalValue(d))
  {
    DigitRunOfConcat(d, t);
    assert (d + t)[..|d|] == d;
    assert (d + t)[|d|..] == t;
  }

  /** Too many digits for a `usize`: failure at the whole input. */
  lemma NumberOverflow(d: string, t: string)
    requires |d| > 0 && AllNumeric(d) && DecimalValue(d) > USIZE_MAX
    requires t == [] || !IsNumeric(t[0])
    ensures NumberParser().Parse(d + t) == Err(d + t)
  {
    DigitRunOfConcat(d, t);
    assert (d + t)[..|d|] == d;
  }

  /** No leading digit: failure at the whole input. */
  lemma NumberNeedsDigit(s: string)
    requires s == [] || !IsNumeric(s[0])
    ensures NumberParser().Parse(s) == Err(s)
  {
  }

  /** A rendered `usize` reads back as itself, whatever non-digit follows. */
  lemma NumberReadsRendering(n: nat, t: string)
    requires n <= USIZE_MAX
    requires t == [] || !IsNumeric(t[0])
    ensures NumberParser().Parse(Digits(n) + t) == Ok(t, n)
  {
    DigitsRoundTrip(n);
    NumberSplit(Digits(n), t);
  }

  // ---------------------------------------------------------------------
  // The early range-quantifier fragment of util.rs.

  /** The local `RangeQuantifier` of util.rs: the upper bound is always 0. */
  datatype RangeQuantifier = RangeQuantifier(lower: nat, upper: nat)

  /** `parse_range_quantifier`: `{` and a number; nothing after is checked. */
  function ParseRangeQuantifier(data: string): (r: Result<RangeQuantifier>)
    ensures r.Ok? ==> r.value.upper == 0 && |data| > 0 && data[0] == '{'
    ensures r.Ok? ==> IsSuffix(r.rest, data) && |r.rest| + 2 <= |data|
    ensures r.Err? ==> r.at == data || (|data| > 0 && r.at == data[1..])
  {
    match PrefixParser("{").Parse(data)
    case Err(e) => Err(e)
    case Ok(rest, _) =>
      match NumberParser().Parse(rest)
      case Err(e) => Err(e)
      case Ok(rest, lower) => Ok(rest, RangeQuantifier(lower, 0))
  }

  /** A brace and a number give that number as the lower bound; what follows
      the digits is left untouched, closing brace or not. */
  lemma ParseRangeQuantifierReads(d: string, t: string)
    requires IsUsizeLiteral(d)
    requires t == [] || !IsNumeric(t[0])
    ensures ParseRangeQuantifier("{" + d + t) == Ok(t, RangeQuantifier(DecimalValue(d), 0))
  {
    assert ("{" + d + t)[1..] == d + t;
    NumberSplit(d, t);
  }

  /** Without the opening brace the failure is at the original data. */
  lemma ParseRangeQuantifierNeedsBrace(data: string)
    requires data == [] || data[0] != '{'
    ensures ParseRangeQuantifier(data) == Err(data)
  {
  }

  /** A brace without a number fails at the slice after the brace. */
  lemma ParseRangeQuantifierNeedsNumber(t: string)
    requires t == [] || !IsNumeric(t[0])
    ensures ParseRangeQuantifier("{" + t) == Err(t)
  {
    assert ("{" + t)[1..] == t;
  }

  /** `{` followed by digits whose value exceeds `usize::MAX` fails at the
      slice after `{`, the data `NumberParser` reports on overflow. */
  lemma ParseRangeQuantifierOverflow(d: string, t: string)
    requires |d| > 0 && AllNumeric(d) && DecimalValue(d) > USIZE_MAX
    requires t == [] || !IsNumeric(t[0])
    ensures ParseRangeQuantifier("{" + d + t) == Err(d + t)
  {
    BraceShape(d, t);
    NumberOverflow(d, t);
    ParseRangeQuantifierAfterBrace("{" + d + t);
  }

  lemma BraceShape(d: string, t: string)
    ensures |"{" + d + t| > 0 && ("{" + d + t)[0] == '{' && ("{" + d + t)[1..] == d + t
  {
  }

  /** After the brace, `parse_range_quantifier` is `NumberParser` with the
      upper bound set to 0. */
  lemma ParseRangeQuantifierAfterBrace(data: string)
    requires |data| > 0 && data[0] == '{'
    ensures ParseRangeQuantifier(data) ==
      match NumberParser().Parse(data[1..])
      case Err(e) => Err(e)
      case Ok(rest, lower) => Ok(rest, RangeQuantifier(lower, 0))
  {
    assert "{" <= data;
  }

  // ---------------------------------------------------------------------
  // Primitives the grammars use.

  /** `any_char`: one character, or failure on empty input. */
  function AnyChar(s: string): Result<char>
  {
    if |s| > 0 then Ok(s[1..], s[0]) else Err(s)
  }

  lemma AnyCharIsParser()
    ensures Sound(AnyChar) && Progress(AnyChar) && Backtracks(AnyChar)
    ensures forall s :: AnyChar(s).Ok? <==> |s| > 0
  {
  }

  /** `whitespace_char`: `any_char` filtered by `is_whitespace`. */
  function WhitespaceChar(): (p: Parser<char>)
    ensures Sound(p) && Progress(p) && Backtracks(p)
  {
    AnyCharIsParser();
    Filter(AnyChar, IsWhitespace)
  }

  /** `space0`: zero or more whitespace characters. */
  function Space0(): (p: Parser<seq<char>>)
    ensures Total(p) && Sound(p)
  {
    ZeroOrMore(WhitespaceChar())
  }

  /** `space_some`: one or more whitespace characters. */
  function SpaceSome(): (p: Parser<seq<char>>)
    ensures Sound(p) && Progress(p) && Backtracks(p)
  {
    OneOrMore(WhitespaceChar())
  }

  /** `whitespace_wrap(parser)`: optional whitespace on both sides. */
  function WhitespaceWrap<A>(p: Parser<A>): (q: Parser<A>)
    ensures Sound(p) ==> Sound(q)
    ensures Progress(p) ==> Progress(q)
  {
    Right(Space0(), Left(p, Space0()))
  }

  /** `number()`: behaves as `NumberParser`. */
  function Number(): (p: Parser<nat>)
    ensures Sound(p) && Progress(p) && Backtracks(p)
  {
    (s: string) => NumberParser().Parse(s)
  }

  /** `whitespace_char` takes one whitespace character. */
  lemma WhitespaceCharOutcome(s: string)
    ensures WhitespaceChar()(s).Ok? <==> |s| > 0 && IsWhitespace(s[0])
    ensures WhitespaceChar()(s).Ok? ==> WhitespaceChar()(s) == Ok(s[1..], s[0])
    ensures WhitespaceChar()(s).Err? ==> WhitespaceChar()(s) == Err(s)
  {
    assert WhitespaceChar()(s) == Filter(AnyChar, IsWhitespace)(s);
    FilterOutcome(AnyChar, IsWhitespace, s);
  }

  /** Where no whitespace comes first, `space0` consumes nothing. */
  lemma Space0None(s: string)
    requires s == [] || !IsWhitespace(s[0])
    ensures Space0()(s) == Ok(s, [])
  {
    WhitespaceCharOutcome(s);
    ZeroOrMoreStop(WhitespaceChar(), s);
  }

  /** `space0` consumes a whole run of whitespace and stops at the first
      other character. */
  lemma {:induction false} Space0Run(ws: string, s: string)
    requires AllWhitespace(ws)
    requires s == [] || !IsWhitespace(s[0])
    ensures Space0()(ws + s) == Ok(s, ws)
    decreases |ws|
  {
    if ws == [] {
      assert ws + s == s;
      Space0None(s);
    } else {
      var u := ws + s;
      RunShape(ws, s);
      Space0Run(ws[1..], s);
      WhitespaceCharOutcome(u);
      ZeroOrMoreStep(WhitespaceChar(), u);
    }
  }

  lemma RunShape(ws: string, s: string)
    requires |ws| > 0
    ensures (ws + s)[0] == ws[0] && (ws + s)[1..] == ws[1..] + s
    ensures [ws[0]] + ws[1..] == ws
  {
  }

  /** `space_some` consumes a non-empty run of whitespace and stops at the
      first other character. */
  lemma SpaceSomeRun(ws: string, s: string)
    requires |ws| > 0 && AllWhitespace(ws)
    requires s == [] || !IsWhitespace(s[0])
    ensures SpaceSome()(ws + s) == Ok(s, ws)
  {
    var u := ws + s;
    RunShape(ws, s);
    Space0Run(ws[1..], s);
    WhitespaceCharOutcome(u);
    OneOrMoreOutcome(WhitespaceChar(), u);
  }

  /** `space_some` fails, at its input, unless whitespace comes first. */
  lemma SpaceSomeNeedsWhitespace(s: string)
    requires s == [] || !IsWhitespace(s[0])
    ensures SpaceSome()(s) == Err(s)
  {
    WhitespaceCharOutcome(s);
    OneOrMoreOutcome(WhitespaceChar(), s);
  }
}
