/** The unit tests of src/combinators.rs (lines 107-132), as lemmas. */
module CombinatorTests {
  import opened Parse
  import opened Combinators
  import opened Util
  import opened Xml

  /** `right(match_literal("<"), identifier)` */
  function TagOpener(): Parser<string>
  {
    Right(MatchLiteral("<"), Identifier)
  }

  lemma TagOpenerSteps(s: string)
    ensures !("<" <= s) ==> TagOpener()(s) == Err(s)
    ensures "<" <= s ==> TagOpener()(s) == Identifier(s[1..])
  {
    PairOutcome(MatchLiteral("<"), Identifier, s);
    RightOutcome(MatchLiteral("<"), Identifier, s);
  }

  lemma TestRightCombinatorReads()
    ensures TagOpener()("<my-first-element/>") == Ok("/>", "my-first-element")
  {
    var s := "<my-first-element/>";
    assert s == "<" + ("my-first-element" + "/>");
    assert s[1..] == "my-first-element" + "/>";
    MyFirstElementReads();
    TagOpenerSteps(s);
  }

  lemma MyFirstElementReads()
    ensures Identifier("my-first-element" + "/>") == Ok("/>", "my-first-element")
  {
    assert IsIdentifier("my-first-element");
    IdentifierReads("my-first-element", "/>");
  }

  lemma TestRightCombinatorNoOpener()
    ensures TagOpener()("oops") == Err("oops")
  {
    TagOpenerSteps("oops");
  }

  lemma TestRightCombinatorNoName()
    ensures TagOpener()("<!oops") == Err("!oops")
  {
    assert "<!oops"[1..] == "!oops";
    TagOpenerSteps("<!oops");
  }

  /** After the first `ha` of `hahaha`, the remaining `haha` is read by
      `zero_or_more` as two units; both repetition tests end this way. */
  lemma TwoHas()
    ensures ZeroOrMore(MatchLiteral("ha"))("haha") == Ok("", [(), ()])
  {
    var p := MatchLiteral("ha");
    assert "haha" == "ha" + "ha";
    assert "ha" == "ha" + "";
    MatchLiteralOn("ha", "ha");
    MatchLiteralOn("ha", "");
    ZeroOrMoreStop(p, "");
    ZeroOrMoreStep(p, "ha");
    ZeroOrMoreStep(p, "haha");
    TwoUnits();
  }

  lemma TwoUnits()
    ensures [()] + ([()] + []) == [(), ()]
    ensures [()] + [(), ()] == [(), (), ()]
  {
  }

  lemma TestOneOrMoreThree()
    ensures OneOrMore(MatchLiteral("ha"))("hahaha") == Ok("", [(), (), ()])
  {
    var p := MatchLiteral("ha");
    assert "hahaha" == "ha" + "haha";
    MatchLiteralOn("ha", "haha");
    TwoHas();
    TwoUnits();
    OneOrMoreOutcome(p, "hahaha");
  }

  lemma TestOneOrMoreNoMatch()
    ensures OneOrMore(MatchLiteral("ha"))("ahah") == Err("ahah")
    ensures OneOrMore(MatchLiteral("ha"))("") == Err("")
  {
    assert "ahah"[0] != "ha"[0];
    OneOrMoreOutcome(MatchLiteral("ha"), "ahah");
    OneOrMoreOutcome(MatchLiteral("ha"), "");
  }

  lemma TestZeroOrMoreThree()
    ensures ZeroOrMore(MatchLiteral("ha"))("hahaha") == Ok("", [(), (), ()])
  {
    var p := MatchLiteral("ha");
    assert "hahaha" == "ha" + "haha";
    MatchLiteralOn("ha", "haha");
    TwoHas();
    ZeroOrMoreStep(p, "hahaha");
    TwoUnits();
  }

  lemma TestZeroOrMoreNoMatch()
    ensures ZeroOrMore(MatchLiteral("ha"))("ahah") == Ok("ahah", [])
    ensures ZeroOrMore(MatchLiteral("ha"))("") == Ok("", [])
  {
    assert "ahah"[0] != "ha"[0];
    ZeroOrMoreStop(MatchLiteral("ha"), "ahah");
    ZeroOrMoreStop(MatchLiteral("ha"), "");
  }
}
