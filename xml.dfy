/** The mini-XML element grammar of src/xml.rs.  src/main.rs (lines 27-136)
    carries a line-for-line copy of the same grammar, and the test module of
    src/combinators.rs (lines 86-105) a copy of `identifier`; this module
    models all three once. */
module Xml {
  import opened Parse
  import opened Combinators
  import opened Util

  /** An element: its tag name, its attributes in source order (duplicate
      keys kept) and its child elements in source order. */
  datatype Element = Element(name: string, attributes: seq<(string, string)>, children: seq<Element>)

  // ---------------------------------------------------------------------
  // identifier

  /** A character allowed after the first one of an identifier. */
  predicate IsIdentChar(c: char) { IsAlphanumeric(c) || c == '-' }

  /** An alphabetic character followed by identifier characters. */
  predicate IsIdentifier(n: string)
  {
    |n| > 0 && IsAlphabetic(n[0]) && forall i :: 1 <= i < |n| ==> IsIdentChar(n[i])
  }

  /** The length of the longest prefix of `t` made of identifier characters. */
  function IdentTail(t: string): (n: nat)
    ensures n <= |t|
    ensures forall i :: 0 <= i < n ==> IsIdentChar(t[i])
    ensures n == |t| || !IsIdentChar(t[n])
  {
    if t == [] || !IsIdentChar(t[0]) then 0 else 1 + IdentTail(t[1..])
  }

  /** The longest prefix is the only one that stops where identifier
      characters stop. */
  lemma {:induction false} IdentTailUnique(t: string, k: nat)
    requires k <= |t|
    requires forall i :: 0 <= i < k ==> IsIdentChar(t[i])
    requires k == |t| || !IsIdentChar(t[k])
    ensures IdentTail(t) == k
  {
    if k > 0 {
      IdentTailUnique(t[1..], k - 1);
    }
  }

  /** `identifier`: an alphabetic first character, then as many identifier
      characters as follow.  Fails, at its input, only on the first one. */
  function Identifier(input: string): (r: Result<string>)
    ensures r.Err? <==> input == [] || !IsAlphabetic(input[0])
    ensures r.Err? ==> r.at == input
    ensures r.Ok? ==> r.value + r.rest == input && IsIdentifier(r.value)
    ensures r.Ok? ==> r.rest == [] || !IsIdentChar(r.rest[0])
  {
    if input == [] || !IsAlphabetic(input[0]) then Err(input)
    else
      var n := 1 + IdentTail(input[1..]);
      assert input[..n] + input[n..] == input;
      Ok(input[n..], input[..n])
  }

  /** The `for` loop of `identifier`: push characters until one is not an
      identifier character, then slice the input after what was matched. */
  method IdentifierScan(input: string) returns (r: Result<string>)
    ensures r == Identifier(input)
  {
    var matched: string := [];
    if input != [] && IsAlphabetic(input[0]) {
      matched := matched + [input[0]];
    } else {
      return Err(input);
    }
    var i := 1;
    while i < |input|
      invariant 1 <= i <= |input|
      invariant matched == input[..i]
      invariant forall j :: 1 <= j < i ==> IsIdentChar(input[j])
    {
      var ch := input[i];
      if IsIdentChar(ch) {
        matched := matched + [ch];
      } else {
        break;
      }
      i := i + 1;
    }
    IdentTailUnique(input[1..], i - 1);
    var nextIndex := |matched|;
    r := Ok(input[nextIndex..], matched);
  }

  /** A valid identifier followed by a character that cannot continue it is
      read exactly. */
  lemma IdentifierReads(n: string, t: string)
    requires IsIdentifier(n)
    requires t == [] || !IsIdentChar(t[0])
    ensures Identifier(n + t) == Ok(t, n)
  {
    var s := n + t;
    assert s[1..][..|n| - 1] == n[1..];
    IdentTailUnique(s[1..], |n| - 1);
    assert s[..|n|] == n;
    assert s[|n|..] == t;
  }

  lemma IdentifierIsParser()
    ensures Sound(Identifier) && Progress(Identifier) && Backtracks(Identifier)
  {
    forall s | Identifier(s).Ok? ensures IsSuffix(Identifier(s).rest, s) {
      var r := Identifier(s);
      assert s[|s| - |r.rest|..] == r.rest;
    }
  }

  // ---------------------------------------------------------------------
  // Productions

  predicate NotQuote(c: char) { c != '"' }

  /** `filter(any_char, |c| *c != '"')` */
  function QuoteFreeChar(): (p: Parser<char>)
    ensures Sound(p) && Progress(p) && Backtracks(p)
  {
    AnyCharIsParser();
    Filter(AnyChar, NotQuote)
  }

  /** `chars.into_iter().collect()`: a `String` is its characters. */
  function CollectChars(chars: seq<char>): string { chars }

  /** `quoted_string()`: `"`, any characters but `"`, then `"`. */
  function QuotedString(): (p: Parser<string>)
    ensures Sound(p) && Progress(p)
  {
    Map(
      Right(MatchLiteral("\""), Left(ZeroOrMore(QuoteFreeChar()), MatchLiteral("\""))),
      CollectChars)
  }

  /** `attribute_pair()`: identifier, `=`, quoted string. */
  function AttributePair(): (p: Parser<(string, string)>)
    ensures Sound(p) && Progress(p)
  {
    IdentifierIsParser();
    Pair(Identifier, Right(MatchLiteral("="), QuotedString()))
  }

  /** `right(space_some(), attribute_pair())` */
  function SpacedAttribute(): (p: Parser<(string, string)>)
    ensures Sound(p) && Progress(p)
  {
    Right(SpaceSome(), AttributePair())
  }

  /** `attributes()`: zero or more attribute pairs, each after whitespace. */
  function Attributes(): (p: Parser<seq<(string, string)>>)
    ensures Total(p) && Sound(p)
  {
    ZeroOrMore(SpacedAttribute())
  }

  /** `element_start()`: `<`, the tag name, the attributes. */
  function ElementStart(): (p: Parser<(string, seq<(string, string)>)>)
    ensures Sound(p) && Progress(p)
  {
    IdentifierIsParser();
    Right(MatchLiteral("<"), Pair(Identifier, Attributes()))
  }

  /** The closure shared by `open_element` and `single_element`. */
  function StartToElement(x: (string, seq<(string, string)>)): Element
  {
    Element(x.0, x.1, [])
  }

  /** `single_element()`: an element start closed by `/>`. */
  function SingleElement(): (p: Parser<Element>)
    ensures Sound(p) && Progress(p)
  {
    Map(Left(ElementStart(), MatchLiteral("/>")), StartToElement)
  }

  /** `open_element()`: an element start closed by `>`. */
  function OpenElement(): (p: Parser<Element>)
    ensures Sound(p) && Progress(p)
  {
    Map(Left(ElementStart(), MatchLiteral(">")), StartToElement)
  }

  /** The `move |name| name == &expected_name` closure of `close_element`. */
  function NameIs(expected: string): string -> bool
  {
    (name: string) => name == expected
  }

  /** `close_element(expected_name)`: `</`, an identifier, `>`, and the
      identifier must be the expected name. */
  function CloseElement(expected: string): (p: Parser<string>)
    ensures Sound(p) && Progress(p) && Backtracks(p)
  {
    IdentifierIsParser();
    Filter(Right(MatchLiteral("</"), Left(Identifier, MatchLiteral(">"))), NameIs(expected))
  }

  /** `element()`: whitespace-wrapped choice of a single element or, on the
      same input, a parent element.  The grammar is recursive through
      `parent_element`, so the three mutually recursive productions are
      written on the input directly; the lemmas at the end of this module
      prove each equal to its combinator form. */
  function ElementAt(s: string): (r: Result<Element>)
    ensures r.Ok? ==> IsSuffix(r.rest, s) && |r.rest| < |s|
    decreases |s|, 2
  {
    var inner := Space0()(s).rest;
    var body :=
      (match SingleElement()(inner)
       case Ok(rest, e) => Ok(rest, e)
       case Err(_) => ParentElementAt(inner));
    match body
    case Err(e) => Err(e)
    case Ok(rest, e) =>
      SuffixTransitive(rest, inner, s);
      SuffixTransitive(Space0()(rest).rest, rest, s);
      Ok(Space0()(rest).rest, e)
  }

  /** `parent_element()`: an open tag, its children, and the close tag
      bearing the open tag's name; the result is the open element with its
      children replaced. */
  function ParentElementAt(s: string): (r: Result<Element>)
    ensures r.Ok? ==> IsSuffix(r.rest, s) && |r.rest| < |s|
    decreases |s|, 1
  {
    match OpenElement()(s)
    case Err(e) => Err(e)
    case Ok(t, elem) =>
      match ChildrenAt(t)
      case Err(e) => Err(e)
      case Ok(u, children) =>
        match CloseElement(elem.name)(u)
        case Err(e) => Err(e)
        case Ok(w, _) =>
          SuffixTransitive(u, t, s);
          SuffixTransitive(w, u, s);
          Ok(w, elem.(children := children))
  }

  /** `zero_or_more(element())` inside `parent_element`. */
  function ChildrenAt(s: string): (r: Result<seq<Element>>)
    ensures r.Ok? && IsSuffix(r.rest, s)
    decreases |s|, 3
  {
    match ElementAt(s)
    case Err(_) => Ok(s, [])
    case Ok(next, e) =>
      var more := ChildrenAt(next);
      SuffixTransitive(more.rest, next, s);
      Ok(more.rest, [e] + more.value)
  }

  /** `element()` as a parser value. */
  function ElementParser(): (p: Parser<Element>)
    ensures Sound(p) && Progress(p)
  {
    (s: string) => ElementAt(s)
  }

  /** `parent_element()` as a parser value. */
  function ParentElement(): (p: Parser<Element>)
    ensures Sound(p) && Progress(p)
  {
    (s: string) => ParentElementAt(s)
  }

  /** The `move |children|` closure of `parent_element`: a copy of the open
      element whose children are replaced. */
  function WithChildren(elem: Element): seq<Element> -> Element
  {
    (children: seq<Element>) => elem.(children := children)
  }

  /** The parser `and_then` builds from the open element in `parent_element`. */
  function ChildrenThenClose(elem: Element): (p: Parser<Element>)
    ensures Sound(p)
  {
    Map(Left(ZeroOrMore(ElementParser()), CloseElement(elem.name)), WithChildren(elem))
  }

  // ---------------------------------------------------------------------
  // The recursive productions are the combinator compositions.

  /** `element() == whitespace_wrap(either(single_element(), parent_element()))` */
  lemma ElementIsCombinator(s: string)
    ensures ElementAt(s) == WhitespaceWrap(Either(SingleElement(), ParentElement()))(s)
  {
    var choice := Either(SingleElement(), ParentElement());
    var inner := Space0()(s).rest;
    EitherOutcome(SingleElement(), ParentElement(), inner);
    PairOutcome(choice, Space0(), inner);
    LeftOutcome(choice, Space0(), inner);
    PairOutcome(Space0(), Left(choice, Space0()), s);
    RightOutcome(Space0(), Left(choice, Space0()), s);
  }

  /** `zero_or_more(element())` */
  lemma {:induction false} ChildrenIsZeroOrMore(s: string)
    ensures ChildrenAt(s) == ZeroOrMore(ElementParser())(s)
    decreases |s|
  {
    match ElementAt(s)
    case Err(_) =>
      ZeroOrMoreStop(ElementParser(), s);
    case Ok(next, e) =>
      ChildrenIsZeroOrMore(next);
      ZeroOrMoreStep(ElementParser(), s);
  }

  /** `parent_element() == open_element().and_then(...)` */
  lemma ParentElementIsCombinator(s: string)
    ensures ParentElementAt(s) == AndThen(OpenElement(), ChildrenThenClose)(s)
  {
    AndThenOutcome(OpenElement(), ChildrenThenClose, s);
    match OpenElement()(s)
    case Err(_) =>
    case Ok(t, elem) =>
      var kids := ZeroOrMore(ElementParser());
      var close := CloseElement(elem.name);
      ChildrenIsZeroOrMore(t);
      PairOutcome(kids, close, t);
      LeftOutcome(kids, close, t);
      MapOutcome(Left(kids, close), WithChildren(elem), t);
  }
}
