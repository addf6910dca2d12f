# lparse in Dafny

This is a Dafny model of the core of *lparse*, a small string parser-combinator library written in Rust, together with the two grammars built on it.

A parser is a function from an input slice to either `Ok(remainder, value)` or `Err(slice)`. Here a slice is a `string` (a sequence of characters) and a parser is the total arrow `string -> Result<T>` (module `Parse`). Four properties of parsers recur in the contracts:
- `Sound`: every remainder is a suffix of the input.
- `Progress`: every success consumes a character.
- `Backtracks`: every failure reports exactly the input it was given.
- `Total`: the parser never fails.

The modules follow the source files:

| module | file | content |
|---|---|---|
| `Parse` | `parse.rs` | the result type and the parser predicates |
| `Combinators` | `combinators.rs` | see below |
| `Util` | `util.rs` | see below |
| `RangeQuantifierGrammar` | `re_compile/range_quantifier.rs` | the grammar `{m}`, `{m,}`, `{m,n}` and its tests |
| `Xml` | `xml.rs` | the mini-XML element grammar (also copied line for line in `main.rs:27-136`) |
| `XmlProperties` | — | what the XML productions accept, build and reject |
| `CombinatorTests` | — | the unit tests of `combinators.rs` |

- **Combinators** contains:
  - `map`, `pair`, `left` and `right`.
  - `zero_or_more` and `one_or_more`, each in two forms. One is the specification function `Many`. The other is a method with the source's `while let` loop, proved equal to it.
  - The helpers the grammars use that `combinators.rs` and `util.rs` do not define: `filter`, `either`, `and_then` and `optional`.
- **Util** contains:
  - `match_literal`, `PrefixParser`, `NumberParser` and the early `parse_range_quantifier`.
  - The helpers `any_char`, `number`, `space_some` and `whitespace_wrap`.

The helpers get only the meaning their call sites need:
- `either`: ordered choice, with the second parser retried on the same input.
- `filter`: a predicate check that fails at the original input.
- `and_then`: bind.
- `optional`: never fails; on failure it yields `None` and leaves the input unchanged.
- `number`: `NumberParser`.
- `any_char`: one character.
- `space_some`: one or more whitespace characters.
- `whitespace_wrap(p)`: `right(space0, left(p, space0))`.

The XML grammar is recursive: `element` calls `parent_element`, which calls `zero_or_more(element())`. The three productions are therefore written as mutually recursive functions on the input: `ElementAt`, `ParentElementAt` and `ChildrenAt`. They terminate on the input length, because every element consumes at least `<`, a letter and `>` or `/>`. The lemmas `ElementIsCombinator`, `ParentElementIsCombinator` and `ChildrenIsZeroOrMore` prove each one equal to the combinator composition written in the source.

`identifier` builds its match with a `for` loop that breaks early. This is modelled twice: the function `Identifier`, and the method `IdentifierScan`, whose loop is proved to compute it.

The closure in `parent_element` clones the open element and assigns its `children` field. This is a datatype update, `elem.(children := children)`.

## Model

| member | source | states |
|---|---|---|
| Parse.Result | src/parse.rs:1 | `ParseResult`: `Ok` carries the unconsumed remainder and the value, `Err` the slice at which parsing failed |
| Combinators.Map | src/combinators.rs:3-13 | `map` keeps suffix-remainders, progress and exact failure slices of its parser |
| Combinators.MapOutcome | src/combinators.rs:8-12 | `map` succeeds iff its parser does, with the same remainder and value `f(v)`; a failure slice is passed through unchanged |
| Combinators.MapIdentity | src/combinators.rs:8-12 | mapping with the identity gives back the parser's own result |
| Combinators.Pair | src/combinators.rs:15-27 | `pair` keeps suffix-remainders; it makes progress if either part does and the other leaves a suffix |
| Combinators.PairOutcome | src/combinators.rs:20-26 | `pair` succeeds iff `p1` succeeds and `p2` succeeds on `p1`'s remainder, giving `p2`'s remainder and `(v1, v2)`; it fails with `p1`'s slice when `p1` fails and with `p2`'s slice when `p2` does |
| Combinators.PairFailsAfterFirst | src/combinators.rs:21-25 | when `p2` fails at its input, `pair` fails at `p1`'s remainder, not at the original input |
| Combinators.Left | src/combinators.rs:29-35 | `left` keeps suffix-remainders and progress as `pair` does |
| Combinators.LeftOutcome | src/combinators.rs:34 | `left` is `pair` with the first component projected: same success, remainder and failure slice |
| Combinators.Right | src/combinators.rs:37-43 | `right` keeps suffix-remainders and progress as `pair` does |
| Combinators.RightOutcome | src/combinators.rs:42 | `right` is `pair` with the second component projected: same success, remainder and failure slice |
| Combinators.Many | src/combinators.rs:72-80 | repetition of a progressing parser always succeeds with a remainder no longer than the input |
| Combinators.ManySoundAt | src/combinators.rs:75-79 | repetition of a sound parser leaves a suffix of its input |
| Combinators.ManySound | src/combinators.rs:75-79 | the same, for every input at once |
| Combinators.ManyShrinks | src/combinators.rs:53-63 | after one success, the repetition's remainder is strictly shorter than the input |
| Combinators.ZeroOrMore | src/combinators.rs:68-81 | `zero_or_more` never fails, and it leaves a suffix when its parser does |
| Combinators.ZeroOrMoreLoop | src/combinators.rs:72-80 | the `while let` loop that pushes each value and advances `rest` computes exactly `zero_or_more` |
| Combinators.Option | src/re_compile/range_quantifier.rs:46 | Rust's `Option`, the value type of `optional`: `None` or `Some(value)` |
| Combinators.Repeats | src/combinators.rs:57-84 | not code of the library: the independent specification of the `while let` loops of `zero_or_more` and `one_or_more`. It holds when the values are the consecutive successes of the parser from the input, in order, ending at the given remainder |
| Combinators.ZeroOrMoreGreedy | src/combinators.rs:75-79 | the values are consecutive successes of the parser, in order, ending at the remainder, and the parser fails at the remainder |
| Combinators.ZeroOrMoreUnique | src/combinators.rs:75-79 | any run of consecutive successes that ends where the parser fails is exactly the result of `zero_or_more` |
| Combinators.ZeroOrMoreStep | src/combinators.rs:75-78 | one success is the first value, followed by `zero_or_more` on its remainder |
| Combinators.ZeroOrMoreStop | src/combinators.rs:79 | an immediate failure gives `Ok(input, [])` |
| Combinators.OneOrMore | src/combinators.rs:45-66 | `one_or_more` fails only at its own input, always makes progress, and keeps suffix-remainders |
| Combinators.OneOrMoreLoop | src/combinators.rs:49-65 | the first-item test followed by the `while let` loop computes exactly `one_or_more` |
| Combinators.OneOrMoreOutcome | src/combinators.rs:53-64 | `one_or_more` fails, at the original input, iff the first attempt fails; otherwise it is `[first]` followed by `zero_or_more` on the rest, so it has at least one value |
| Combinators.OneOrMoreGreedy | src/combinators.rs:60-64 | a success of `one_or_more` is a run of consecutive successes, ending where the parser fails |
| Combinators.Filter | src/xml.rs:27-33 | `filter` fails only at its own input and keeps suffix-remainders and progress |
| Combinators.FilterOutcome | src/xml.rs:27-33 | `filter` succeeds iff the parser succeeds and its value is accepted, with the parser's result unchanged; otherwise it fails at the original input |
| Combinators.Either | src/xml.rs:37 | `either` keeps suffix-remainders and progress; its failures are the second parser's |
| Combinators.EitherOutcome | src/xml.rs:37 | `either` returns the first parser's success; otherwise it returns the second parser's result on the same input |
| Combinators.AndThen | src/xml.rs:11-23 | `and_then` keeps suffix-remainders when every continuation does |
| Combinators.AndThenOutcome | src/xml.rs:11-23 | `and_then` runs the parser built from the first value on the first remainder, and passes a first failure through |
| Combinators.Optional | src/re_compile/range_quantifier.rs:46 | `optional` never fails and keeps suffix-remainders |
| Combinators.OptionalOutcome | src/re_compile/range_quantifier.rs:46 | `optional` wraps a success in `Some`; a failure becomes `None` with the input untouched |
| Util.MatchLiteral | src/util.rs:3-8 | `match_literal(e)` succeeds iff `e` is a prefix of the input, with remainder `input[|e|..]`; on failure it returns the exact input; the remainder is a suffix, and shorter when `e` is non-empty |
| Util.MatchLiteralOn | src/util.rs:5 | `e + t` is read as `Ok(t, ())` |
| Util.PrefixParser.Parse | src/util.rs:12-15 | `strip_prefix` succeeds iff the prefix is there, and prefix plus remainder is the data; on failure it returns the data |
| Util.PrefixParserIsMatchLiteral | src/util.rs:12-15 | `PrefixParser(p)` and `match_literal(p)` agree on every input |
| Util.DigitRun | src/util.rs:22-23 | the split point is the first non-numeric character, or the length, and everything before it is numeric |
| Util.NumberParser.Parse | src/util.rs:18-26 | a success consumes the leading digit run, leaves a remainder that does not start with a digit, and has the decimal value of a `usize`-sized digit prefix; a failure reports the original data |
| Util.DigitRunOfConcat | src/util.rs:22 | digits followed by a non-digit split exactly after the digits |
| Util.NumberSplit | src/util.rs:21-25 | `d + t`, where `d` is a `usize` literal and `t` does not start with a digit, gives `Ok(t, value(d))` |
| Util.NumberOverflow | src/util.rs:24 | a digit run whose value exceeds `usize::MAX` fails with the original data |
| Util.NumberNeedsDigit | src/util.rs:22-24 | with no leading digit the parse fails with the original data |
| Util.Digits | src/util.rs:24 | not code of the library: the model's own reference decimal rendering, used for the round trip; it is a non-empty run of digits |
| Util.DigitsRoundTrip | src/util.rs:24 | the decimal value of a number's rendering is that number |
| Util.NumberReadsRendering | src/util.rs:21-25 | every `usize`, rendered in decimal, is read back exactly |
| Util.RangeQuantifier | src/util.rs:28-38 | the early quantifier record: a lower bound and an upper bound, both `usize`, built by `new` |
| Util.ParseRangeQuantifier | src/util.rs:40-45 | a success starts with `{`, has upper bound 0 and consumes at least two characters; a failure is at the data or at the slice after `{` |
| Util.ParseRangeQuantifierReads | src/util.rs:40-45 | `{` and a `usize` literal give lower = that number and upper = 0; nothing after the number is checked |
| Util.ParseRangeQuantifierNeedsBrace | src/util.rs:41-42 | without `{` the failure is at the whole data |
| Util.ParseRangeQuantifierNeedsNumber | src/util.rs:43 | `{` without a number fails at the slice after `{` |
| Util.ParseRangeQuantifierAfterBrace | src/util.rs:40-45 | after a leading `{`, the result is `NumberParser` on the rest, with its failure slice unchanged and upper bound 0 on success |
| Util.ParseRangeQuantifierOverflow | src/util.rs:40-45 | `{` followed by digits above `usize::MAX` fails at the slice after `{`, as `NumberParser` reports its data on overflow |
| Util.AnyChar | src/xml.rs:85 | `any_char`: the first character and the rest of the input, or failure at the empty input |
| Util.AnyCharIsParser | src/xml.rs:85 | `any_char` succeeds iff the input is non-empty, consumes one character, and fails at its input |
| Util.WhitespaceChar | src/xml.rs:70 | one whitespace character: sound, progressing, failing at its input |
| Util.WhitespaceCharOutcome | src/xml.rs:70 | it succeeds iff the first character is whitespace, which it consumes |
| Util.Space0 | src/xml.rs:37 | optional whitespace never fails and leaves a suffix |
| Util.SpaceSome | src/xml.rs:70 | `space_some` makes progress and fails only at its input |
| Util.WhitespaceWrap | src/xml.rs:37 | `whitespace_wrap` keeps suffix-remainders and progress |
| Util.Number | src/re_compile/range_quantifier.rs:28 | `number` is `NumberParser` as a parser: sound, progressing, failing at its input |
| Util.Space0None | src/xml.rs:37 | with no leading whitespace nothing is consumed |
| Util.Space0Run | src/xml.rs:37 | a whole run of whitespace is consumed and returned, up to the first non-whitespace character |
| Util.SpaceSomeRun | src/xml.rs:70 | `space_some` consumes a whole non-empty run of whitespace, up to the first non-whitespace character |
| Util.SpaceSomeNeedsWhitespace | src/xml.rs:70 | with no leading whitespace `space_some` fails at its input |
| RangeQuantifierGrammar.Bound | src/re_compile/range_quantifier.rs:7-11 | the three outcomes of `upper_bound`: no comma, a comma and a number, a comma alone |
| RangeQuantifierGrammar.RangeQuantifier | src/re_compile/range_quantifier.rs:13-23 | the quantifier record: a lower bound and an optional upper bound, built by `new` |
| RangeQuantifierGrammar.BoundOf | src/re_compile/range_quantifier.rs:47-51 | the `upper_bound` closure: no comma gives `Bound::None` whatever follows, a comma without a number `Unbounded`, a comma and a number `Upper(n)` |
| RangeQuantifierGrammar.QuantifierOf | src/re_compile/range_quantifier.rs:31-39 | the `range_quantifier` closure: `Bound::None` repeats the lower bound as upper bound, `Upper(u)` gives `Some(u)`, `Unbounded` gives no upper bound |
| RangeQuantifierGrammar.UpperBound | src/re_compile/range_quantifier.rs:44-53 | `upper_bound` never fails and leaves a suffix |
| RangeQuantifierGrammar.RangeQuantifierParser | src/re_compile/range_quantifier.rs:25-42 | `range_quantifier` leaves a suffix and makes progress |
| RangeQuantifierGrammar.NumberOn | src/re_compile/range_quantifier.rs:28 | `number` reads a `usize` literal up to the first non-digit |
| RangeQuantifierGrammar.NumberOff | src/re_compile/range_quantifier.rs:28 | `number` fails at its input when no digit follows |
| RangeQuantifierGrammar.OptionalSome | src/re_compile/range_quantifier.rs:46 | `optional` of a success is `Some` with the same remainder |
| RangeQuantifierGrammar.OptionalNone | src/re_compile/range_quantifier.rs:46 | `optional` of a failure is `None` at the same input |
| RangeQuantifierGrammar.UpperBoundSteps | src/re_compile/range_quantifier.rs:45-52 | `upper_bound` is the match over the optional comma and the optional number |
| RangeQuantifierGrammar.UpperBoundAbsent | src/re_compile/range_quantifier.rs:48 | no comma and no number: `Bound::None`, nothing consumed |
| RangeQuantifierGrammar.UpperBoundWithoutComma | src/re_compile/range_quantifier.rs:46-48 | no comma but a number: the number is consumed and the bound is still `Bound::None` |
| RangeQuantifierGrammar.UpperBoundComma | src/re_compile/range_quantifier.rs:49 | a comma and no number: `Bound::Unbounded`, only the comma consumed |
| RangeQuantifierGrammar.UpperBoundCommaNumber | src/re_compile/range_quantifier.rs:50 | a comma and a number: `Bound::Upper(number)` |
| RangeQuantifierGrammar.BraceNumber | src/re_compile/range_quantifier.rs:28 | `{` and a `usize` literal give its value |
| RangeQuantifierGrammar.QuantifierSteps | src/re_compile/range_quantifier.rs:26-41 | after the bounds, the quantifier succeeds iff `}` follows, with the remainder after it; otherwise it fails at the slice where `}` was expected |
| RangeQuantifierGrammar.QuantifierEndsAtBrace | src/re_compile/range_quantifier.rs:27-30 | every success began with `{`, and its remainder is exactly what follows a closing `}` |
| RangeQuantifierGrammar.QuantifierNeedsLower | src/re_compile/range_quantifier.rs:28 | every success has read `{` and a number |
| RangeQuantifierGrammar.LowerShape | src/re_compile/range_quantifier.rs:28 | `{` and a number consume at least two characters and leave a suffix |
| RangeQuantifierGrammar.ExactQuantifier | src/re_compile/range_quantifier.rs:31-35 | `{n}` gives lower `n` and upper `Some(n)` |
| RangeQuantifierGrammar.OpenQuantifier | src/re_compile/range_quantifier.rs:37 | `{n,}` gives lower `n` and upper `None` |
| RangeQuantifierGrammar.BoundedQuantifier | src/re_compile/range_quantifier.rs:36 | `{m,n}` gives lower `m` and upper `Some(n)` |
| RangeQuantifierGrammar.QuantifierNeedsBrace | src/re_compile/range_quantifier.rs:28 | input not starting with `{` fails at the whole input |
| RangeQuantifierGrammar.QuantifierRejectsSpace | src/re_compile/range_quantifier.rs:46 | no whitespace is skipped: `{m, …` fails at the space |
| RangeQuantifierGrammar.QuantifierDangling | src/re_compile/range_quantifier.rs:29 | `{m,n` with no `}` fails at the empty remainder |
| RangeQuantifierGrammar.ExactQuantifierOfNumber | src/re_compile/range_quantifier.rs:31-35 | every `usize`, rendered in decimal, round-trips through `{n}` |
| RangeQuantifierGrammar.OneDigit | src/re_compile/range_quantifier.rs:95-98 | one digit is a `usize` literal of its own value |
| RangeQuantifierGrammar.TwoDigits | src/re_compile/range_quantifier.rs:80-86 | two digits are a `usize` literal of value `10a + b` |
| RangeQuantifierGrammar.TestTrivial | src/re_compile/range_quantifier.rs:59-64 | `mhgsdkjafg` fails at itself |
| RangeQuantifierGrammar.TestDanglingCurlyBrace | src/re_compile/range_quantifier.rs:66-71 | `{54,88` fails at `""` |
| RangeQuantifierGrammar.TestSpaceAfterComma | src/re_compile/range_quantifier.rs:73-77 | `{54, 88}` fails at `" 88}"` |
| RangeQuantifierGrammar.TestExactNumber | src/re_compile/range_quantifier.rs:79-86 | `{75}` gives `(75, Some(75))` with nothing left |
| RangeQuantifierGrammar.TestUnboundedRange | src/re_compile/range_quantifier.rs:88-92 | `{34,}` gives `(34, None)` |
| RangeQuantifierGrammar.TestExactRange | src/re_compile/range_quantifier.rs:94-98 | `{1,3}` gives `(1, Some(3))` |
| Xml.Element | src/xml.rs:3-8 | an element: tag name, attributes as ordered key/value pairs (duplicates allowed), child elements in order |
| Xml.IdentTail | src/xml.rs:102-108 | the loop's stopping point: identifier characters up to it, and a non-identifier character or the end at it |
| Xml.IdentTailUnique | src/xml.rs:102-108 | that stopping point is the only one with this property |
| Xml.Identifier | src/xml.rs:93-112 | `identifier` fails, with the exact input, iff the input is empty or starts with a non-alphabetic character; otherwise the value is a valid identifier, value plus remainder is the input, and the remainder is empty or starts with a character that cannot continue the name |
| Xml.IdentifierScan | src/xml.rs:93-112 | the `for` loop with `break`, followed by slicing at `matched.len()`, computes `identifier` |
| Xml.IdentifierReads | src/main.rs:126-135 | a valid identifier followed by a non-identifier character is read exactly |
| Xml.IdentifierIsParser | src/xml.rs:93-112 | `identifier` is sound, progressing and fails at its input |
| Xml.QuoteFreeChar | src/xml.rs:85 | `filter(any_char, c != '"')` is sound, progressing and fails at its input |
| Xml.CollectChars | src/xml.rs:89 | `chars.into_iter().collect()`: the string is the collected characters, in order |
| Xml.QuotedString | src/xml.rs:80-91 | `quoted_string` leaves a suffix and makes progress |
| Xml.AttributePair | src/xml.rs:73-78 | `attribute_pair` leaves a suffix and makes progress |
| Xml.SpacedAttribute | src/xml.rs:70 | whitespace then an attribute pair: sound and progressing |
| Xml.Attributes | src/xml.rs:69-71 | `attributes` never fails and leaves a suffix |
| Xml.ElementStart | src/xml.rs:62-67 | `element_start` leaves a suffix and makes progress |
| Xml.StartToElement | src/xml.rs:43-47 | the closure shared by `open_element` and `single_element` (also lines 54-58): the start's name and attributes, no children |
| Xml.SingleElement | src/xml.rs:51-60 | `single_element` leaves a suffix and makes progress |
| Xml.OpenElement | src/xml.rs:40-49 | `open_element` leaves a suffix and makes progress |
| Xml.NameIs | src/xml.rs:32 | the `filter` predicate of `close_element`: the parsed name equals the expected name |
| Xml.CloseElement | src/xml.rs:26-34 | `close_element` leaves a suffix, makes progress and fails at its input |
| Xml.ElementAt | src/xml.rs:36-38 | every successful `element` leaves a strictly shorter suffix |
| Xml.ParentElementAt | src/xml.rs:10-24 | every successful `parent_element` leaves a strictly shorter suffix |
| Xml.ChildrenAt | src/xml.rs:14 | the children never fail and leave a suffix |
| Xml.ElementParser | src/xml.rs:36-38 | `element()` as a parser value is sound and progressing |
| Xml.ParentElement | src/xml.rs:10-24 | `parent_element()` as a parser value is sound and progressing |
| Xml.WithChildren | src/xml.rs:17-21 | the clone-and-assign closure: a copy of the open element whose children are the parsed ones, name and attributes kept |
| Xml.ChildrenThenClose | src/xml.rs:12-22 | the parser built from the open element leaves a suffix |
| Xml.ElementIsCombinator | src/xml.rs:36-38 | `element` equals `whitespace_wrap(either(single_element, parent_element))` on every input |
| Xml.ChildrenIsZeroOrMore | src/xml.rs:14 | the children equal `zero_or_more(element())` on every input |
| Xml.ParentElementIsCombinator | src/xml.rs:10-24 | `parent_element` equals `open_element().and_then(...)` on every input |
| XmlProperties.QuoteFreeCharOutcome | src/xml.rs:85 | a non-quote character is consumed; a quote or the end is a failure at the input |
| XmlProperties.QuotedBody | src/xml.rs:85 | the repetition reads a quote-free body up to a quote or the end, in order |
| XmlProperties.QuotedStringSteps | src/xml.rs:80-91 | `quoted_string` is an opening quote, the longest quote-free run, then a closing quote; each failure has its slice |
| XmlProperties.QuotedStringReads | src/xml.rs:80-91 | `"body"` with a quote-free body followed by `r` gives `Ok(r, body)`: both delimiters are consumed |
| XmlProperties.QuotedStringUnterminated | src/main.rs:104-115 | a missing closing quote fails at the empty remainder |
| XmlProperties.QuotedStringNeedsQuote | src/xml.rs:83 | without an opening quote it fails at the input |
| XmlProperties.QuoteFreeRepeats | src/xml.rs:85 | a run of quote-free characters is a quote-free prefix of the input |
| XmlProperties.QuotedStringShape | src/xml.rs:80-91 | every success is a quote-free value between two quotes, followed by the remainder |
| XmlProperties.QuotedStringExample | src/xml.rs:80-91 | `"Hello Joe!"` gives `Hello Joe!` |
| XmlProperties.EqualsQuotedReads | src/xml.rs:76 | `="value"` gives the value |
| XmlProperties.AttributePairOk | src/xml.rs:73-78 | an identifier, then `=` and a quoted string, give the pair of the two values |
| XmlProperties.AttributePairReads | src/xml.rs:73-78 | `key="value"` gives `(key, value)`, in that order |
| XmlProperties.SpacedAttributeReads | src/xml.rs:70 | any non-empty run of whitespace followed by `key="value"` gives the pair |
| XmlProperties.SpacedAttributeOk | src/xml.rs:70 | `right(space_some(), attribute_pair())` gives the pair read after the whitespace |
| XmlProperties.SpacedAttributeNeedsSpace | src/xml.rs:70 | an attribute without leading whitespace is a failure at the input |
| XmlProperties.AttributesCons | src/xml.rs:69-71 | attributes are collected in source order: the first pair, then the rest, whatever non-empty run of whitespace precedes it |
| XmlProperties.AttributesStop | src/xml.rs:69-71 | with no leading whitespace there are no attributes and nothing is consumed |
| XmlProperties.AttributesLeaveTrailingSpace | src/xml.rs:70 | any non-empty run of whitespace that no attribute follows is left unconsumed, and no attribute is collected |
| XmlProperties.AttributePairNeedsName | src/xml.rs:73-77 | input that does not start with a letter is no attribute |
| XmlProperties.AttributePairNeedsEquals | src/xml.rs:73-77 | a name not followed by `=` is no attribute |
| XmlProperties.AttributesLeaveBareName | src/xml.rs:69-78 | whitespace and a name without `=`, as in `<a b>`, give no attribute and consume nothing |
| XmlProperties.DuplicateAttributesKept | src/xml.rs:69-78 | two attributes with the same key are both kept, in order |
| XmlProperties.AttributesPairOfTwo | src/xml.rs:69-78 | two attributes, each after its own non-empty run of whitespace, give the two pairs in order |
| XmlProperties.ElementStartSteps | src/xml.rs:62-67 | `element_start` is `<`, an identifier and the attributes, with the failure slice of each step |
| XmlProperties.ElementStartOk | src/xml.rs:62-67 | `<`, an identifier and the attributes after it give the pair of name and attributes |
| XmlProperties.ElementStartReads | src/xml.rs:62-67 | `<name` followed by a character that is neither part of a name nor whitespace gives `(name, [])` |
| XmlProperties.ElementStartName | src/xml.rs:65 | the tag name of an element start is a valid identifier |
| XmlProperties.SingleElementSteps | src/xml.rs:51-60 | `single_element` is an element start followed by `/>`, giving an element with the start's name and attributes and no children |
| XmlProperties.OpenElementSteps | src/xml.rs:40-49 | `open_element` is an element start followed by `>`, giving an element with the start's name and attributes and no children |
| XmlProperties.SingleElementReads | src/xml.rs:51-60 | `<name/>` gives `Element(name, [], [])` |
| XmlProperties.OpenElementReads | src/xml.rs:40-49 | `<name>` gives `Element(name, [], [])` |
| XmlProperties.SingleElementRejectsOpenTag | src/xml.rs:53 | an open tag is not a single element |
| XmlProperties.OpenElementRejectsSelfClosing | src/xml.rs:42 | a self-closing tag is not an open tag |
| XmlProperties.OpenElementShape | src/xml.rs:40-49 | an opened element has a valid name and no children |
| XmlProperties.CloseTag | src/xml.rs:28-31 | the parser inside `close_element`: `right(match_literal("</"), left(identifier, match_literal(">")))` |
| XmlProperties.CloseTagSteps | src/xml.rs:28-31 | the close tag is `</`, an identifier and `>`, with the failure slice of each step |
| XmlProperties.CloseTagOuter | src/xml.rs:28-31 | without `</` the close tag fails at its input; with it, the rest is read by the name part |
| XmlProperties.CloseTagInner | src/xml.rs:30 | a name followed by `>` gives the name and the text after `>`; otherwise the failure of the name, or the slice where `>` is missing |
| XmlProperties.CloseElementSteps | src/xml.rs:27-33 | `close_element(n)` gives the close tag's result when its name is `n`, and fails at the input otherwise |
| XmlProperties.CloseElementAccepts | src/main.rs:50-58 | `</n>` is accepted by `close_element(n)`, consuming `</`, the name and `>` |
| XmlProperties.CloseElementOnlyTag | src/main.rs:50-58 | `close_element(n)` accepts only `</n>`, and only when `n` is a valid identifier |
| XmlProperties.CloseElementMismatch | src/xml.rs:32 | a close tag with another name is rejected at its start |
| XmlProperties.ParentElementCloses | src/xml.rs:10-24 | open tag, children and matching close tag give the open element with those children |
| XmlProperties.ParentElementUnclosed | src/xml.rs:15 | when the open tag's close tag does not follow the children, `parent_element` fails at the slice after the children |
| XmlProperties.ParentElementSteps | src/xml.rs:10-24 | `parent_element` after an open tag: the children, then the close tag decides |
| XmlProperties.ParentElementKeepsTag | src/main.rs:34-48 | the result has the opening tag's name and attributes; only its children are replaced |
| XmlProperties.ElementSkipsLeadingSpace | src/xml.rs:37 | whitespace before an element is insignificant |
| XmlProperties.ElementTrimsTrailingSpace | src/xml.rs:37 | a successful element leaves no leading whitespace in its remainder |
| XmlProperties.ElementFails | src/xml.rs:37 | with neither a single element nor an open tag after the whitespace, `element` fails |
| XmlProperties.TagNeedsName | src/xml.rs:62-67 | `<` not followed by a letter starts no tag |
| XmlProperties.ElementRejectsCloseTag | src/xml.rs:36-38 | a close tag does not start an element |
| XmlProperties.ElementRejectsSpaceBeforeSlash | src/xml.rs:36-78 | `<name />` is not an element, because `attributes` leaves the space unconsumed |
| XmlProperties.SlashAttributes | src/xml.rs:69-71 | the space before `/>` gives no attribute and is left unconsumed |
| XmlProperties.SpaceBeforeSlashStart | src/xml.rs:62-71 | in `<name />` the element start reads the name, no attributes, and stops before the space |
| XmlProperties.StartNotClosed | src/xml.rs:40-60 | an element start followed by neither `/` nor `>` is neither a single element nor an open tag |
| XmlProperties.SpaceBeforeSlash | src/xml.rs:62-78 | in `<name />` the element start stops before the space, so neither `/>` nor `>` follows |
| XmlProperties.ElementOfParent | src/xml.rs:37 | without a single element, `element` is the parent element on the same input, with trailing whitespace consumed |
| XmlProperties.NestedElementExample | src/xml.rs:10-38 | `<a><b/></a>` gives `a` with the single child `b` |
| XmlProperties.NestedElementReads | src/xml.rs:10-38 | for any identifiers `a` and `b`, `<a><b/></a>` gives `a` with the single child `b` and consumes everything |
| XmlProperties.NestedParentReads | src/xml.rs:10-24 | the parent element of `<a><b/></a>`, for any identifiers `a` and `b` |
| XmlProperties.NestedChildrenReads | src/xml.rs:14 | the children inside `<a>...</a>` are `[b]`, stopping at `</a>` |
| XmlProperties.NestedChildReads | src/xml.rs:36-38 | `<b/>` is read as one element, leaving `</a>` |
| XmlProperties.ElementOfSingle | src/xml.rs:37 | when a single element follows the leading whitespace, `element` is that element with trailing whitespace consumed |
| XmlProperties.ChildrenNil | src/combinators.rs:68-80 | `zero_or_more(element())` stops, consuming nothing, where no element is read |
| XmlProperties.ChildrenCons | src/combinators.rs:68-80 | after one element, `zero_or_more(element())` appends the rest of the children to it |
| CombinatorTests.TagOpener | src/combinators.rs:109 | the test's `tag_opener`: `right(match_literal("<"), identifier)` |
| CombinatorTests.TagOpenerSteps | src/combinators.rs:109 | `right(match_literal("<"), identifier)` fails at the input without `<` and is `identifier` after it |
| CombinatorTests.MyFirstElementReads | src/combinators.rs:86-105 | `my-first-element` is read as one identifier before `/>` |
| CombinatorTests.TestRightCombinatorReads | src/combinators.rs:110-113 | `<my-first-element/>` gives `Ok("/>", "my-first-element")` |
| CombinatorTests.TestRightCombinatorNoOpener | src/combinators.rs:114 | `oops` gives `Err("oops")` |
| CombinatorTests.TestRightCombinatorNoName | src/combinators.rs:115 | `<!oops` gives `Err("!oops")`, the second parser's slice |
| CombinatorTests.TwoHas | src/combinators.rs:120-129 | the step fact both repetition tests share: after the first `ha` of `hahaha`, `zero_or_more(match_literal("ha"))` reads the remaining `haha` as two units and consumes it all |
| CombinatorTests.TestOneOrMoreThree | src/combinators.rs:120-121 | `one_or_more(match_literal("ha"))` on `hahaha` gives `Ok("", [(), (), ()])` |
| CombinatorTests.TestOneOrMoreNoMatch | src/combinators.rs:122-123 | on `ahah` and `""` it gives `Err("ahah")` and `Err("")` |
| CombinatorTests.TestZeroOrMoreThree | src/combinators.rs:128-129 | `zero_or_more(match_literal("ha"))` on `hahaha` gives `Ok("", [(), (), ()])` |
| CombinatorTests.TestZeroOrMoreNoMatch | src/combinators.rs:130-131 | on `ahah` and `""` it gives `Ok("ahah", [])` and `Ok("", [])` |

## Left out

- Character classes: `is_alphabetic`, `is_alphanumeric`, `is_numeric` and `is_whitespace` consult the Unicode tables. They are modelled by their ASCII restrictions. Non-ASCII letters and digits are therefore outside the model.
- Byte indexing: Rust slices strings by UTF-8 byte offsets (`expected.len()`, `matched.len()`, `input.get(0..n)`). The model uses character positions, which agree with byte offsets on ASCII input.
- `usize` is taken to be 64 bits (`USIZE_MAX`). `NumberParser` overflow is modelled against that bound.
- Combinators.ZeroOrMore: requires that the inner parser consumes input on every success. In the source, a parser that succeeds without consuming makes the loop run forever. Every use in the repository consumes.
- Combinators.OneOrMore: the same requirement, for the same reason.
- Lifetimes, trait generics and `impl Trait`: parsers are Dafny function values.
- `Parse` as a trait is left out, and so is the blanket implementation. A parser is simply the arrow type.
- The helpers `filter`, `either`, `and_then`, `optional`, `number`, `any_char`, `space_some` and `whitespace_wrap` are not defined in the files modelled here. They get the minimal meaning described above and nothing more.
- `main()` is left out: it prints, measures wall-clock time and parses one fixed document. So is `#![type_length_limit]`, a compiler setting.
- Stack depth on deeply nested XML is not modelled. The recursion is unbounded here.
- `Clone` and the field assignment in `parent_element` are a value update. Aliasing does not arise.
- `RangeQuantifier::new` in `util.rs` and in `range_quantifier.rs` are plain datatype constructors.
- `{54, 88}`: a space after the comma is not skipped. The code returns `Err(" 88}")`, as the unit test at `src/re_compile/range_quantifier.rs:74-77` expects; see `RangeQuantifierGrammar.QuantifierRejectsSpace` and `RangeQuantifierGrammar.TestSpaceAfterComma`.
