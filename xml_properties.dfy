/** What the productions of src/xml.rs accept and build. */
module XmlProperties {
  import opened Parse
  import opened Combinators
  import opened Util
  import opened Xml

  predicate NoQuote(v: string) { forall i :: 0 <= i < |v| ==> v[i] != '"' }

  // ---------------------------------------------------------------------
  // quoted_string

  lemma QuoteFreeCharOutcome(s: string)
    ensures QuoteFreeChar()(s) == if |s| > 0 && s[0] != '"' then Ok(s[1..], s[0]) else Err(s)
  {
    assert QuoteFreeChar()(s) == Filter(AnyChar, NotQuote)(s);
    FilterOutcome(AnyChar, NotQuote, s);
  }

  /** The characters up to the first `"` (or the end) are the body. */
  lemma {:induction false} QuotedBody(body: string, t: string)
    requires NoQuote(body)
    requires t == [] || t[0] == '"'
    ensures ZeroOrMore(QuoteFreeChar())(body + t) == Ok(t, body)
    decreases |body|
  {
    var q := QuoteFreeChar();
    QuoteFreeCharOutcome(body + t);
    if body == [] {
      assert body + t == t;
      ZeroOrMoreStop(q, t);
    } else {
      assert (body + t)[1..] == body[1..] + t;
      assert [body[0]] + body[1..] == body;
      QuotedBody(body[1..], t);
      ZeroOrMoreStep(q, body + t);
    }
  }

  /** `quoted_string` step by step: the opening quote, the longest run of
      other characters, the closing quote. */
  lemma QuotedStringSteps(s: string)
    ensures |s| == 0 || s[0] != '"' ==> QuotedString()(s) == Err(s)
    ensures |s| > 0 && s[0] == '"' ==>
      var z := ZeroOrMore(QuoteFreeChar())(s[1..]);
      QuotedString()(s) == if "\"" <= z.rest then Ok(z.rest[1..], z.value) else Err(z.rest)
  {
    var lit := MatchLiteral("\"");
    var body := ZeroOrMore(QuoteFreeChar());
    var inner := Left(body, lit);
    PairOutcome(lit, inner, s);
    RightOutcome(lit, inner, s);
    MapOutcome(Right(lit, inner), CollectChars, s);
    if |s| > 0 && s[0] == '"' {
      assert "\"" <= s;
      PairOutcome(body, lit, s[1..]);
      LeftOutcome(body, lit, s[1..]);
    }
  }

  /** A body without quotes between two quotes is read, and nothing more. */
  lemma QuotedStringReads(body: string, r: string)
    requires NoQuote(body)
    ensures QuotedString()("\"" + body + "\"" + r) == Ok(r, body)
  {
    var s := "\"" + body + "\"" + r;
    assert s[1..] == body + ("\"" + r);
    assert ("\"" + r)[1..] == r;
    QuotedBody(body, "\"" + r);
    QuotedStringSteps(s);
  }

  /** Without a closing quote the whole input is consumed and the failure
      is reported at the empty remainder. */
  lemma QuotedStringUnterminated(body: string)
    requires NoQuote(body)
    ensures QuotedString()("\"" + body) == Err([])
  {
    var s := "\"" + body;
    assert s[1..] == body + [];
    QuotedBody(body, []);
    QuotedStringSteps(s);
  }

  lemma QuotedStringNeedsQuote(s: string)
    requires s == [] || s[0] != '"'
    ensures QuotedString()(s) == Err(s)
  {
    QuotedStringSteps(s);
  }

  lemma {:induction false} QuoteFreeRepeats(t: string, vs: seq<char>, rest: string)
    requires Repeats(QuoteFreeChar(), t, vs, rest)
    ensures t == vs + rest && NoQuote(vs)
    decreases |vs|
  {
    QuoteFreeCharOutcome(t);
    if vs != [] {
      QuoteFreeRepeats(t[1..], vs[1..], rest);
      assert t == [t[0]] + t[1..];
    }
  }

  /** Every success of `quoted_string` is a quote-free body between quotes;
      with QuotedStringReads this characterises the production. */
  lemma QuotedStringShape(s: string)
    requires QuotedString()(s).Ok?
    ensures var r := QuotedString()(s);
      NoQuote(r.value) && s == "\"" + r.value + "\"" + r.rest
  {
    QuotedStringSteps(s);
    var t := s[1..];
    var z := ZeroOrMore(QuoteFreeChar())(t);
    var r := QuotedString()(s);
    assert "\"" <= z.rest && r == Ok(z.rest[1..], z.value);
    ZeroOrMoreGreedy(QuoteFreeChar(), t);
    QuoteFreeRepeats(t, z.value, z.rest);
    QuotedConcat(s, z.value, z.rest);
  }

  lemma QuotedConcat(s: string, v: string, u: string)
    requires |s| > 0 && s[0] == '"' && s[1..] == v + u
    requires "\"" <= u
    ensures s == "\"" + v + "\"" + u[1..]
  {
    assert u == "\"" + u[1..];
    assert s == "\"" + s[1..];
  }

  /** `quoted_string()` on `"Hello Joe!"` */
  lemma QuotedStringExample()
    ensures QuotedString()("\"Hello Joe!\"") == Ok("", "Hello Joe!")
  {
    HelloJoeShape();
    QuotedStringReads("Hello Joe!", "");
  }

  lemma HelloJoeShape()
    ensures NoQuote("Hello Joe!")
    ensures "\"Hello Joe!\"" == "\"" + "Hello Joe!" + "\"" + ""
  {
  }

  // ---------------------------------------------------------------------
  // attribute_pair and attributes

  /** `="value"` */
  lemma EqualsQuotedReads(v: string, t: string)
    requires NoQuote(v)
    ensures Right(MatchLiteral("="), QuotedString())("=" + ("\"" + v + "\"" + t)) == Ok(t, v)
  {
    var q := "\"" + v + "\"" + t;
    var eq := MatchLiteral("=");
    MatchLiteralOn("=", q);
    QuotedStringReads(v, t);
    PairOutcome(eq, QuotedString(), "=" + q);
    RightOutcome(eq, QuotedString(), "=" + q);
  }

  /** `key="value"` is read as the pair, in that order. */
  lemma AttributePairReads(k: string, v: string, t: string)
    requires IsIdentifier(k) && NoQuote(v)
    ensures AttributePair()(k + "=\"" + v + "\"" + t) == Ok(t, (k, v))
  {
    var q := "\"" + v + "\"" + t;
    AttributeShape(k, v, t);
    IdentifierReads(k, "=" + q);
    EqualsQuotedReads(v, t);
    AttributePairOk(k + ("=" + q), k, "=" + q, v, t);
  }

  lemma AttributeShape(k: string, v: string, t: string)
    ensures k + "=\"" + v + "\"" + t == k + ("=" + ("\"" + v + "\"" + t))
  {
  }

  lemma AttributeHead(k: string, v: string, t: string)
    requires IsIdentifier(k)
    ensures (k + "=\"" + v + "\"" + t)[0] == k[0] && !IsWhitespace(k[0])
  {
  }

  lemma AttributePairOk(s: string, k: string, q: string, v: string, t: string)
    requires Identifier(s) == Ok(q, k)
    requires Right(MatchLiteral("="), QuotedString())(q) == Ok(t, v)
    ensures AttributePair()(s) == Ok(t, (k, v))
  {
    PairOutcome(Identifier, Right(MatchLiteral("="), QuotedString()), s);
  }

  /** A run of whitespace, then an attribute. */
  lemma SpacedAttributeReads(ws: string, k: string, v: string, t: string)
    requires |ws| > 0 && AllWhitespace(ws) && IsIdentifier(k) && NoQuote(v)
    ensures SpacedAttribute()(ws + (k + "=\"" + v + "\"" + t)) == Ok(t, (k, v))
  {
    var a := k + "=\"" + v + "\"" + t;
    AttributeHead(k, v, t);
    SpaceSomeRun(ws, a);
    AttributePairReads(k, v, t);
    SpacedAttributeOk(ws + a, a, (k, v), t);
  }

  /** `right(space_some(), attribute_pair())` from the outcomes of its parts. */
  lemma SpacedAttributeOk(s: string, a: string, kv: (string, string), t: string)
    requires SpaceSome()(s).Ok? && SpaceSome()(s).rest == a
    requires AttributePair()(a) == Ok(t, kv)
    ensures SpacedAttribute()(s) == Ok(t, kv)
  {
    PairOutcome(SpaceSome(), AttributePair(), s);
    RightOutcome(SpaceSome(), AttributePair(), s);
  }

  /** Without leading whitespace there is no further attribute. */
  lemma SpacedAttributeNeedsSpace(t: string)
    requires t == [] || !IsWhitespace(t[0])
    ensures SpacedAttribute()(t) == Err(t)
  {
    SpaceSomeNeedsWhitespace(t);
    PairOutcome(SpaceSome(), AttributePair(), t);
    RightOutcome(SpaceSome(), AttributePair(), t);
  }

  /** `attributes` collects the pairs in source order, duplicates kept,
      whatever run of whitespace separates them. */
  lemma AttributesCons(ws: string, k: string, v: string, t: string)
    requires |ws| > 0 && AllWhitespace(ws) && IsIdentifier(k) && NoQuote(v)
    ensures Attributes()(ws + (k + "=\"" + v + "\"" + t)) ==
            Ok(Attributes()(t).rest, [(k, v)] + Attributes()(t).value)
  {
    SpacedAttributeReads(ws, k, v, t);
    ZeroOrMoreStep(SpacedAttribute(), ws + (k + "=\"" + v + "\"" + t));
  }

  lemma AttributesStop(t: string)
    requires t == [] || !IsWhitespace(t[0])
    ensures Attributes()(t) == Ok(t, [])
  {
    SpacedAttributeNeedsSpace(t);
    ZeroOrMoreStop(SpacedAttribute(), t);
  }

  /** Whitespace not followed by an attribute is left unconsumed, because
      `zero_or_more` restores the input of the failed repetition. */
  lemma AttributesLeaveTrailingSpace(ws: string, t: string)
    requires |ws| > 0 && AllWhitespace(ws)
    requires t == [] || !IsWhitespace(t[0])
    requires AttributePair()(t).Err?
    ensures Attributes()(ws + t) == Ok(ws + t, [])
  {
    var s := ws + t;
    SpaceSomeRun(ws, t);
    PairOutcome(SpaceSome(), AttributePair(), s);
    RightOutcome(SpaceSome(), AttributePair(), s);
    ZeroOrMoreStop(SpacedAttribute(), s);
  }

  /** No attribute starts without a letter. */
  lemma AttributePairNeedsName(t: string)
    requires t == [] || !IsAlphabetic(t[0])
    ensures AttributePair()(t).Err?
  {
    PairOutcome(Identifier, Right(MatchLiteral("="), QuotedString()), t);
  }

  /** A name not followed by `=` is no attribute. */
  lemma AttributePairNeedsEquals(k: string, t: string)
    requires IsIdentifier(k)
    requires t == [] || (!IsIdentChar(t[0]) && t[0] != '=')
    ensures AttributePair()(k + t).Err?
  {
    var eq := MatchLiteral("=");
    IdentifierReads(k, t);
    PairOutcome(eq, QuotedString(), t);
    RightOutcome(eq, QuotedString(), t);
    PairOutcome(Identifier, Right(eq, QuotedString()), k + t);
  }

  /** Whitespace and a bare name, as in `<a b>`: the name is not taken as an
      attribute and the whitespace stays unconsumed. */
  lemma AttributesLeaveBareName(ws: string, k: string, t: string)
    requires |ws| > 0 && AllWhitespace(ws) && IsIdentifier(k)
    requires t == [] || (!IsIdentChar(t[0]) && t[0] != '=')
    ensures Attributes()(ws + (k + t)) == Ok(ws + (k + t), [])
  {
    assert (k + t)[0] == k[0];
    AttributePairNeedsEquals(k, t);
    AttributesLeaveTrailingSpace(ws, k + t);
  }

  /** Two attributes with the same key are both kept, in order. */
  lemma DuplicateAttributesKept()
    ensures Attributes()(" a=\"1\" a=\"2\"/>") == Ok("/>", [("a", "1"), ("a", "2")])
  {
    DuplicateShape();
    DuplicateParts();
    AttributesPairOfTwo(" ", "a", "1", " ", "a", "2", " a=\"2\"/>", "/>");
  }

  lemma DuplicateShape()
    ensures " a=\"1\" a=\"2\"/>" == " " + ("a" + "=\"" + "1" + "\"" + " a=\"2\"/>")
    ensures " a=\"2\"/>" == " " + ("a" + "=\"" + "2" + "\"" + "/>")
  {
  }

  lemma DuplicateParts()
    ensures AllWhitespace(" ") && IsIdentifier("a") && NoQuote("1") && NoQuote("2")
    ensures !IsWhitespace("/>"[0])
  {
  }

  lemma AttributesPairOfTwo(ws1: string, k1: string, v1: string, ws2: string, k2: string, v2: string, t: string, u: string)
    requires |ws1| > 0 && AllWhitespace(ws1) && IsIdentifier(k1) && NoQuote(v1)
    requires |ws2| > 0 && AllWhitespace(ws2) && IsIdentifier(k2) && NoQuote(v2)
    requires t == ws2 + (k2 + "=\"" + v2 + "\"" + u)
    requires u == [] || !IsWhitespace(u[0])
    ensures Attributes()(ws1 + (k1 + "=\"" + v1 + "\"" + t)) == Ok(u, [(k1, v1), (k2, v2)])
  {
    AttributesStop(u);
    AttributesCons(ws2, k2, v2, u);
    AttributesCons(ws1, k1, v1, t);
    TwoItems((k1, v1), (k2, v2));
  }

  lemma TwoItems<A>(a: A, b: A)
    ensures [a] + ([b] + []) == [a, b]
  {
  }

  // ---------------------------------------------------------------------
  // element_start, single_element, open_element

  /** `element_start` step by step: `<`, an identifier, then the attributes,
      which never fail. */
  lemma ElementStartSteps(s: string)
    ensures |s| == 0 || s[0] != '<' ==> ElementStart()(s) == Err(s)
    ensures |s| > 0 && s[0] == '<' ==>
      var id := Identifier(s[1..]);
      ElementStart()(s) ==
        if id.Err? then Err(s[1..])
        else Ok(Attributes()(id.rest).rest, (id.value, Attributes()(id.rest).value))
  {
    var lt := MatchLiteral("<");
    var body := Pair(Identifier, Attributes());
    PairOutcome(lt, body, s);
    RightOutcome(lt, body, s);
    if |s| > 0 && s[0] == '<' {
      assert "<" <= s;
      PairOutcome(Identifier, Attributes(), s[1..]);
    }
  }

  /** A tag name followed by neither a name character nor whitespace starts
      an element with no attributes. */
  lemma ElementStartReads(name: string, t: string)
    requires IsIdentifier(name)
    requires t == [] || (!IsIdentChar(t[0]) && !IsWhitespace(t[0]))
    ensures ElementStart()("<" + name + t) == Ok(t, (name, []))
  {
    var s := "<" + name + t;
    LeadingChar(s, '<', name + t);
    IdentifierReads(name, t);
    AttributesStop(t);
    ElementStartOk(s, name, t, [], t);
  }

  lemma LeadingChar(s: string, c: char, t: string)
    requires s == [c] + t
    ensures |s| > 0 && s[0] == c && s[1..] == t
  {
  }

  /** `element_start` from the outcomes of its identifier and attributes. */
  lemma ElementStartOk(s: string, name: string, t: string, attrs: seq<(string, string)>, u: string)
    requires |s| > 0 && s[0] == '<'
    requires Identifier(s[1..]) == Ok(t, name)
    requires Attributes()(t) == Ok(u, attrs)
    ensures ElementStart()(s) == Ok(u, (name, attrs))
  {
    ElementStartSteps(s);
  }

  /** A successful element start names a valid identifier. */
  lemma ElementStartName(s: string)
    requires ElementStart()(s).Ok?
    ensures IsIdentifier(ElementStart()(s).value.0)
  {
    ElementStartSteps(s);
  }

  /** `single_element`: an element start and then `/>`; the element has
      the start's name and attributes and no children. */
  lemma SingleElementSteps(s: string)
    ensures var st := ElementStart()(s);
      SingleElement()(s) ==
        if st.Err? then Err(st.at)
        else if "/>" <= st.rest then Ok(st.rest[2..], Element(st.value.0, st.value.1, []))
        else Err(st.rest)
  {
    var close := MatchLiteral("/>");
    PairOutcome(ElementStart(), close, s);
    LeftOutcome(ElementStart(), close, s);
    MapOutcome(Left(ElementStart(), close), StartToElement, s);
  }

  /** `open_element`: an element start and then `>`. */
  lemma OpenElementSteps(s: string)
    ensures var st := ElementStart()(s);
      OpenElement()(s) ==
        if st.Err? then Err(st.at)
        else if ">" <= st.rest then Ok(st.rest[1..], Element(st.value.0, st.value.1, []))
        else Err(st.rest)
  {
    var close := MatchLiteral(">");
    PairOutcome(ElementStart(), close, s);
    LeftOutcome(ElementStart(), close, s);
    MapOutcome(Left(ElementStart(), close), StartToElement, s);
  }

  lemma SingleElementReads(name: string, r: string)
    requires IsIdentifier(name)
    ensures SingleElement()("<" + name + "/>" + r) == Ok(r, Element(name, [], []))
  {
    assert "<" + name + "/>" + r == "<" + name + ("/>" + r);
    ElementStartReads(name, "/>" + r);
    SingleElementSteps("<" + name + "/>" + r);
    assert ("/>" + r)[2..] == r;
  }

  lemma OpenElementReads(name: string, r: string)
    requires IsIdentifier(name)
    ensures OpenElement()("<" + name + ">" + r) == Ok(r, Element(name, [], []))
  {
    assert "<" + name + ">" + r == "<" + name + (">" + r);
    ElementStartReads(name, ">" + r);
    OpenElementSteps("<" + name + ">" + r);
    assert (">" + r)[1..] == r;
  }

  /** An open tag is not a single element. */
  lemma SingleElementRejectsOpenTag(name: string, r: string)
    requires IsIdentifier(name)
    ensures SingleElement()("<" + name + ">" + r).Err?
  {
    assert "<" + name + ">" + r == "<" + name + (">" + r);
    ElementStartReads(name, ">" + r);
    SingleElementSteps("<" + name + ">" + r);
  }

  /** A self-closing tag is not an open tag. */
  lemma OpenElementRejectsSelfClosing(name: string, r: string)
    requires IsIdentifier(name)
    ensures OpenElement()("<" + name + "/>" + r).Err?
  {
    assert "<" + name + "/>" + r == "<" + name + ("/>" + r);
    ElementStartReads(name, "/>" + r);
    OpenElementSteps("<" + name + "/>" + r);
  }

  /** An opened element has a valid name and, as yet, no children. */
  lemma OpenElementShape(s: string)
    requires OpenElement()(s).Ok?
    ensures IsIdentifier(OpenElement()(s).value.name)
    ensures OpenElement()(s).value.children == []
  {
    OpenElementSteps(s);
    ElementStartName(s);
  }

  // ---------------------------------------------------------------------
  // close_element

  /** `right(match_literal("</"), left(identifier, match_literal(">")))` */
  function CloseTag(): Parser<string>
  {
    Right(MatchLiteral("</"), Left(Identifier, MatchLiteral(">")))
  }

  lemma CloseTagSteps(s: string)
    ensures !("</" <= s) ==> CloseTag()(s) == Err(s)
    ensures "</" <= s ==>
      var id := Identifier(s[2..]);
      CloseTag()(s) ==
        if id.Err? then Err(s[2..])
        else if ">" <= id.rest then Ok(id.rest[1..], id.value)
        else Err(id.rest)
  {
    CloseTagOuter(s);
    if "</" <= s {
      CloseTagInner(s[2..]);
    }
  }

  /** `right(match_literal("</"), …)`: the name part runs on what follows `</`. */
  lemma CloseTagOuter(s: string)
    ensures !("</" <= s) ==> CloseTag()(s) == Err(s)
    ensures "</" <= s ==> CloseTag()(s) == Left(Identifier, MatchLiteral(">"))(s[2..])
  {
    var lt := MatchLiteral("</");
    var inner := Left(Identifier, MatchLiteral(">"));
    PairOutcome(lt, inner, s);
    RightOutcome(lt, inner, s);
  }

  /** `left(identifier, match_literal(">"))`: a name, then `>`. */
  lemma CloseTagInner(u: string)
    ensures var id := Identifier(u);
      Left(Identifier, MatchLiteral(">"))(u) ==
        if id.Err? then Err(u)
        else if ">" <= id.rest then Ok(id.rest[1..], id.value)
        else Err(id.rest)
  {
    PairOutcome(Identifier, MatchLiteral(">"), u);
    LeftOutcome(Identifier, MatchLiteral(">"), u);
  }

  lemma CloseElementSteps(expected: string, s: string)
    ensures CloseElement(expected)(s) ==
      if CloseTag()(s).Ok? && CloseTag()(s).value == expected then CloseTag()(s) else Err(s)
  {
    assert CloseElement(expected)(s) == Filter(CloseTag(), NameIs(expected))(s);
    FilterOutcome(CloseTag(), NameIs(expected), s);
  }

  /** `</name>` closes an element called `name`. */
  lemma CloseElementAccepts(expected: string, w: string)
    requires IsIdentifier(expected)
    ensures CloseElement(expected)("</" + expected + ">" + w) == Ok(w, expected)
  {
    var s := "</" + expected + ">" + w;
    CloseTagShape(expected, w);
    IdentifierReads(expected, ">" + w);
    CloseTagSteps(s);
    CloseElementSteps(expected, s);
  }

  /** Nothing but `</name>` closes an element called `name`, and on failure
      nothing is consumed. */
  lemma CloseElementOnlyTag(expected: string, s: string)
    requires CloseElement(expected)(s).Ok?
    ensures IsIdentifier(expected)
    ensures s == "</" + expected + ">" + CloseElement(expected)(s).rest
  {
    CloseElementSteps(expected, s);
    CloseTagSteps(s);
    var id := Identifier(s[2..]);
    CloseConcat(s, id.value, id.rest);
  }

  lemma CloseConcat(s: string, n: string, u: string)
    requires "</" <= s && s[2..] == n + u && ">" <= u
    ensures s == "</" + n + ">" + u[1..]
  {
    assert u == ">" + u[1..];
    assert s == "</" + s[2..];
  }

  /** A close tag with another name is rejected at its start. */
  lemma CloseElementMismatch(expected: string, other: string, w: string)
    requires other != expected
    requires IsIdentifier(other)
    ensures CloseElement(expected)("</" + other + ">" + w) == Err("</" + other + ">" + w)
  {
    var s := "</" + other + ">" + w;
    if CloseElement(expected)(s).Ok? {
      CloseElementOnlyTag(expected, s);
      CloseElementAccepts(other, w);
      CloseElementSteps(other, s);
      CloseElementSteps(expected, s);
      assert false;
    }
  }

  // ---------------------------------------------------------------------
  // parent_element

  /** An open tag, then the children, then the matching close tag: the
      result is the open element with the children put in. */
  lemma ParentElementCloses(s: string, t: string, open: Element, kids: seq<Element>, w: string)
    requires OpenElement()(s) == Ok(t, open)
    requires ChildrenAt(t) == Ok("</" + open.name + ">" + w, kids)
    ensures ParentElementAt(s) == Ok(w, open.(children := kids))
  {
    OpenElementShape(s);
    CloseElementAccepts(open.name, w);
  }

  /** Where the children are not followed by the open tag's close tag, the
      failure is reported after the children. */
  lemma ParentElementUnclosed(s: string)
    requires OpenElement()(s).Ok?
    requires !(("</" + OpenElement()(s).value.name + ">") <= ChildrenAt(OpenElement()(s).rest).rest)
    ensures ParentElementAt(s) == Err(ChildrenAt(OpenElement()(s).rest).rest)
  {
    var u := ChildrenAt(OpenElement()(s).rest).rest;
    var name := OpenElement()(s).value.name;
    ParentElementSteps(s);
    if CloseElement(name)(u).Ok? {
      CloseElementOnlyTag(name, u);
      PrefixOfConcat("</" + name + ">", CloseElement(name)(u).rest);
      assert false;
    }
  }

  lemma ParentElementSteps(s: string)
    requires OpenElement()(s).Ok?
    ensures var open := OpenElement()(s);
      var kids := ChildrenAt(open.rest);
      var close := CloseElement(open.value.name)(kids.rest);
      ParentElementAt(s) ==
        if close.Ok? then Ok(close.rest, open.value.(children := kids.value)) else Err(kids.rest)
  {
  }

  lemma PrefixOfConcat(a: string, b: string)
    ensures a <= a + b
  {
  }

  /** The parent element keeps the open tag's name and attributes. */
  lemma ParentElementKeepsTag(s: string)
    requires ParentElementAt(s).Ok?
    ensures OpenElement()(s).Ok?
    ensures ParentElementAt(s).value.name == OpenElement()(s).value.name
    ensures ParentElementAt(s).value.attributes == OpenElement()(s).value.attributes
    ensures ParentElementAt(s).value.children == ChildrenAt(OpenElement()(s).rest).value
  {
  }

  // ---------------------------------------------------------------------
  // element

  /** Whitespace before an element is insignificant. */
  lemma ElementSkipsLeadingSpace(w: char, s: string)
    requires IsWhitespace(w)
    ensures ElementAt([w] + s) == ElementAt(s)
  {
    WhitespaceCharOutcome([w] + s);
    assert ([w] + s)[1..] == s;
    ZeroOrMoreStep(WhitespaceChar(), [w] + s);
  }

  /** `whitespace_wrap` consumes all whitespace after an element. */
  lemma ElementTrimsTrailingSpace(s: string)
    requires ElementAt(s).Ok?
    ensures ElementAt(s).rest == [] || !IsWhitespace(ElementAt(s).rest[0])
  {
    var inner := Space0()(s).rest;
    var body := Either(SingleElement(), ParentElement())(inner);
    ElementIsCombinator(s);
    EitherOutcome(SingleElement(), ParentElement(), inner);
    assert body.Ok?;
    ZeroOrMoreGreedy(WhitespaceChar(), body.rest);
    WhitespaceCharOutcome(Space0()(body.rest).rest);
  }

  /** Neither a single element nor an open tag after the leading
      whitespace: no element. */
  lemma ElementFails(s: string)
    requires SingleElement()(Space0()(s).rest).Err?
    requires OpenElement()(Space0()(s).rest).Err?
    ensures ElementAt(s).Err?
  {
  }

  /** `<` not followed by a name starts no tag. */
  lemma TagNeedsName(s: string)
    requires |s| > 0 && s[0] == '<' && (|s| == 1 || !IsAlphabetic(s[1]))
    ensures SingleElement()(s).Err? && OpenElement()(s).Err?
  {
    ElementStartSteps(s);
    SingleElementSteps(s);
    OpenElementSteps(s);
  }

  /** A close tag does not start an element. */
  lemma ElementRejectsCloseTag(t: string)
    ensures ElementAt("</" + t).Err?
  {
    var s := "</" + t;
    assert s[0] == '<' && s[1] == '/';
    Space0None(s);
    TagNeedsName(s);
    ElementFails(s);
  }

  /** `<name />`: the space before `/>` is left by `attributes`, so neither
      `/>` nor `>` follows and no element is read. */
  lemma ElementRejectsSpaceBeforeSlash(name: string, r: string)
    requires IsIdentifier(name)
    ensures ElementAt("<" + name + " />" + r).Err?
  {
    var s := "<" + name + " />" + r;
    assert s[0] == '<';
    Space0None(s);
    SpaceBeforeSlash(name, r);
    ElementFails(s);
  }

  lemma SpaceBeforeSlash(name: string, r: string)
    requires IsIdentifier(name)
    ensures ElementStart()("<" + name + " />" + r) == Ok(" />" + r, (name, []))
    ensures SingleElement()("<" + name + " />" + r).Err?
    ensures OpenElement()("<" + name + " />" + r).Err?
  {
    SpaceBeforeSlashStart(name, r);
    SlashShape(name, r);
    StartNotClosed("<" + name + " />" + r, " />" + r, (name, []));
  }

  lemma SpaceBeforeSlashStart(name: string, r: string)
    requires IsIdentifier(name)
    ensures ElementStart()("<" + name + " />" + r) == Ok(" />" + r, (name, []))
  {
    var s := "<" + name + " />" + r;
    var t := " />" + r;
    SlashShape(name, r);
    LeadingChar(s, '<', name + t);
    IdentifierReads(name, t);
    SlashAttributes(r);
    ElementStartOk(s, name, t, [], t);
  }

  /** The space before `/>` is no attribute and stays unconsumed. */
  lemma SlashAttributes(r: string)
    ensures Attributes()(" />" + r) == Ok(" />" + r, [])
  {
    SlashShape("", r);
    AttributePairNeedsName("/>" + r);
    AttributesLeaveTrailingSpace(" ", "/>" + r);
  }

  lemma SlashShape(name: string, r: string)
    ensures "<" + name + " />" + r == ['<'] + (name + " />" + r)
    ensures " />" + r == " " + ("/>" + r)
    ensures AllWhitespace(" ") && ("/>" + r)[0] == '/'
    ensures (" />" + r)[0] == ' '
  {
  }

  /** An element start followed by neither `/>` nor `>` is neither a
      single element nor an open tag. */
  lemma StartNotClosed(s: string, u: string, x: (string, seq<(string, string)>))
    requires ElementStart()(s) == Ok(u, x)
    requires u == [] || (u[0] != '/' && u[0] != '>')
    ensures SingleElement()(s).Err? && OpenElement()(s).Err?
  {
    SingleElementSteps(s);
    OpenElementSteps(s);
  }

  /** `<a><b/></a>`: a parent with one single-element child. */
  lemma NestedElementExample()
    ensures ElementAt("<a><b/></a>") == Ok("", Element("a", [], [Element("b", [], [])]))
  {
    NestedShape();
    NestedElementReads("a", "b");
  }

  lemma NestedShape()
    ensures "<a><b/></a>" == "<" + "a" + ">" + ("<" + "b" + "/>" + ("</" + "a" + ">"))
    ensures IsIdentifier("a") && IsIdentifier("b")
  {
  }

  /** A parent holding one self-closing child, nothing around them. */
  lemma NestedElementReads(a: string, b: string)
    requires IsIdentifier(a) && IsIdentifier(b)
    ensures ElementAt("<" + a + ">" + ("<" + b + "/>" + ("</" + a + ">"))) ==
            Ok("", Element(a, [], [Element(b, [], [])]))
  {
    var inner := "<" + b + "/>" + ("</" + a + ">");
    var s := "<" + a + ">" + inner;
    TagShape(s, a + ">" + inner);
    Space0None(s);
    Space0None("");
    SingleElementRejectsOpenTag(a, inner);
    NestedParentReads(a, b);
    ElementOfParent(s, s, "", Element(a, [], [Element(b, [], [])]), "");
  }

  lemma TagShape(s: string, t: string)
    requires s == "<" + t
    ensures |s| > 0 && s[0] == '<' && s[1..] == t
  {
  }

  /** When no single element follows the whitespace, `element` is the
      parent element there, with the whitespace after it consumed. */
  lemma ElementOfParent(s: string, inner: string, r: string, e: Element, w: string)
    requires Space0()(s).rest == inner
    requires SingleElement()(inner).Err?
    requires ParentElementAt(inner) == Ok(r, e)
    requires Space0()(r).rest == w
    ensures ElementAt(s) == Ok(w, e)
  {
  }

  lemma NestedParentReads(a: string, b: string)
    requires IsIdentifier(a) && IsIdentifier(b)
    ensures ParentElementAt("<" + a + ">" + ("<" + b + "/>" + ("</" + a + ">"))) ==
            Ok("", Element(a, [], [Element(b, [], [])]))
  {
    var close := "</" + a + ">";
    var inner := "<" + b + "/>" + close;
    OpenElementReads(a, inner);
    NestedChildrenReads(a, b);
    EmptyTail(close);
    ParentElementCloses("<" + a + ">" + inner, inner, Element(a, [], []), [Element(b, [], [])], "");
  }

  lemma EmptyTail(s: string)
    ensures s + "" == s
  {
  }

  lemma NestedChildrenReads(a: string, b: string)
    requires IsIdentifier(b)
    ensures ChildrenAt("<" + b + "/>" + ("</" + a + ">")) == Ok("</" + a + ">", [Element(b, [], [])])
  {
    var close := "</" + a + ">";
    var s := "<" + b + "/>" + close;
    NestedChildReads(a, b);
    CloseShape(a);
    ElementRejectsCloseTag(a + ">");
    ChildrenNil(close);
    ChildrenCons(s, close, Element(b, [], []), close, []);
    OneItem(Element(b, [], []));
  }

  lemma CloseTagShape(a: string, w: string)
    ensures "</" <= "</" + a + ">" + w
    ensures ("</" + a + ">" + w)[2..] == a + (">" + w)
    ensures ">" <= ">" + w && (">" + w)[1..] == w
  {
    assert "</" + a + ">" + w == "</" + (a + (">" + w));
  }

  lemma CloseShape(a: string)
    ensures "</" + a + ">" == "</" + (a + ">")
  {
  }

  /** `zero_or_more(element())` stops where no element is read. */
  lemma ChildrenNil(s: string)
    requires ElementAt(s).Err?
    ensures ChildrenAt(s) == Ok(s, [])
  {
  }

  /** `zero_or_more(element())` after one element. */
  lemma ChildrenCons(s: string, next: string, e: Element, rest: string, es: seq<Element>)
    requires ElementAt(s) == Ok(next, e)
    requires ChildrenAt(next) == Ok(rest, es)
    ensures ChildrenAt(s) == Ok(rest, [e] + es)
  {
  }

  lemma OneItem<A>(a: A)
    ensures [a] + [] == [a]
  {
  }

  lemma NestedChildReads(a: string, b: string)
    requires IsIdentifier(b)
    ensures ElementAt("<" + b + "/>" + ("</" + a + ">")) == Ok("</" + a + ">", Element(b, [], []))
  {
    var close := "</" + a + ">";
    var s := "<" + b + "/>" + close;
    SingleElementReads(b, close);
    ChildShape(a, b);
    Space0None(s);
    Space0None(close);
    ElementOfSingle(s, s, close, Element(b, [], []), close);
  }

  lemma ChildShape(a: string, b: string)
    ensures |"<" + b + "/>" + ("</" + a + ">")| > 0 && ("<" + b + "/>" + ("</" + a + ">"))[0] == '<'
    ensures |"</" + a + ">"| > 0 && ("</" + a + ">")[0] == '<'
  {
  }

  /** When a single element follows the whitespace, `element` is that
      element, with the whitespace after it consumed. */
  lemma ElementOfSingle(s: string, inner: string, r: string, e: Element, w: string)
    requires Space0()(s).rest == inner
    requires SingleElement()(inner) == Ok(r, e)
    requires Space0()(r).rest == w
    ensures ElementAt(s) == Ok(w, e)
  {
  }
}
