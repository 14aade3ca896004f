/**
  The behaviour the parser's unit tests pin down, one lemma per test.
 */
module TemplateParserExamples {
  import opened Wrappers
  import opened TemplateStyles
  import opened Substitution
  import opened TemplateParsers
  import Validation

  /** Square braces: validity is bracket balance, same-style nesting included. */
  lemma SquareBracesValidation()
    ensures CreateSquareBracesStyleParser().IsValid("[][]")
    ensures CreateSquareBracesStyleParser().IsValid("[[]]")
    ensures !CreateSquareBracesStyleParser().IsValid("[[][]")
  {
  }

  /** Ant style: every `{` opening a token follows `$` directly, and no token is embedded in another. */
  lemma AntStyleValidation()
    ensures CreateAntStyleParser().IsValid("${}")
    ensures CreateAntStyleParser().IsValid("${}${}")
    ensures !CreateAntStyleParser().IsValid("${}&{}")
    ensures !CreateAntStyleParser().IsValid("{}${}")
    ensures CreateAntStyleParser().IsValid("${$}${}")
    ensures !CreateAntStyleParser().IsValid("${${}}${}")
    ensures !CreateAntStyleParser().IsValid("$ {}")
  {
  }

  /** Mule style: an expression opens with `#` directly before `[`, and stray brackets are refused. */
  lemma MuleStyleValidation()
    ensures CreateMuleStyleParser().IsValid("#[]")
    ensures CreateMuleStyleParser().IsValid("#[]   #[]")
    ensures !CreateMuleStyleParser().IsValid("#[]&[]")
    ensures !CreateMuleStyleParser().IsValid("[]$[]#")
    ensures CreateMuleStyleParser().IsValid("#[#]#[]")
    ensures !CreateMuleStyleParser().IsValid("#[#[]]#[]")
    ensures !CreateMuleStyleParser().IsValid("# []")
  {
  }

  /** Mule style: bare brackets inside an expression are plain text. */
  lemma MuleStyleBareBrackets()
    ensures CreateMuleStyleParser().IsValid("#[foo:blah[4] = 'foo']")
    ensures CreateMuleStyleParser().IsValid("#[foo:blah[4] = '#foo']")
  {
    var bare := "#[foo:blah[4] = 'foo']";
    assert Validation.ValidFrom(Mule, bare, 16, 1);
    assert Validation.ValidFrom(Mule, bare, 11, 2);
    assert Validation.ValidFrom(Mule, bare, 6, 1);
    var marker := "#[foo:blah[4] = '#foo']";
    assert Validation.ValidFrom(Mule, marker, 16, 1);
    assert Validation.ValidFrom(Mule, marker, 11, 2);
    assert Validation.ValidFrom(Mule, marker, 6, 1);
  }

  /** Mule style: a closing bracket outside any expression is refused. */
  lemma MuleStyleStrayClose()
    ensures !CreateMuleStyleParser().IsValid("#[foo:blah4] = '#foo']")
  {
    var stray := "#[foo:blah4] = '#foo']";
    assert !Validation.ValidFrom(Mule, stray, 19, 0);
    assert !Validation.ValidFrom(Mule, stray, 15, 0);
    assert !Validation.ValidFrom(Mule, stray, 12, 0);
    assert !Validation.ValidFrom(Mule, stray, 8, 1);
    assert !Validation.ValidFrom(Mule, stray, 4, 1);
  }

  /** Mule style: an expression cannot be embedded in another. */
  lemma MuleStyleEmbedded()
    ensures !CreateMuleStyleParser().IsValid("#[foo:blah = '#[foo]']")
  {
    var embedded := "#[foo:blah = '#[foo]']";
    assert Validation.ValidFrom(Mule, embedded, 0, 0) == Validation.ValidFrom(Mule, embedded, 8, 1);
    assert !Validation.ValidFrom(Mule, embedded, 8, 1);
  }

  /** A template given by plain pieces parses to their substitution. */
  lemma ParseExample(st: Style, props: map<string, string>, pieces: seq<Piece>, s: string, r: string)
    requires st.Sound() && Plain(st, pieces)
    requires Render(st, pieces) == s && Substitute(st, props, pieces) == r
    ensures Parse(st, props, s) == r
  {
    ParseRender(st, props, pieces);
  }

  /*
    The templates of the tests as pieces. Each fact about a concrete string
    is a lemma of its own, which keeps each proof small. For the same reason
    the parse examples below take the parser as a parameter fixed by their
    precondition, so the solver does not unfold `Parse` on the literal input.
   */

  function KnownAddress(): seq<Piece> { [Text("smtp://"), Token("fromAddress")] }
  lemma KnownAddressPlain() ensures Plain(SquareBraces, KnownAddress()) {}
  lemma KnownAddressText() ensures Render(SquareBraces, KnownAddress()) == "smtp://[fromAddress]" {}
  lemma KnownAddressResult() ensures Substitute(SquareBraces, map["fromAddress" := "ross.mason@symphonysoft.com"], KnownAddress()) == "smtp://ross.mason@symphonysoft.com" {}

  function UnknownAddress(): seq<Piece> { [Text("smtp://"), Token("toAddress")] }
  lemma UnknownAddressPlain() ensures Plain(SquareBraces, UnknownAddress()) {}
  lemma UnknownAddressText() ensures Render(SquareBraces, UnknownAddress()) == "smtp://[toAddress]" {}
  lemma UnknownAddressResult() ensures Substitute(SquareBraces, map["fromAddress" := "ross.mason@symphonysoft.com"], UnknownAddress()) == "smtp://[toAddress]" {}

  function Sentence(): seq<Piece> { [Text("Some String with "), Token("prop1"), Text(" and "), Token("prop2"), Text(" in it")] }
  lemma SentencePlain() ensures Plain(Ant, Sentence()) {}
  lemma SentenceText() ensures Render(Ant, Sentence()) == "Some String with ${prop1} and ${prop2} in it" {}
  lemma SentenceResult() ensures Substitute(Ant, map["prop1" := "value1", "prop2" := "value2"], Sentence()) == "Some String with value1 and value2 in it" {}

  function ShortSentence(): seq<Piece> { [Text("Some String with "), Token("prop1"), Text(" in it")] }
  lemma ShortSentencePlain() ensures Plain(Ant, ShortSentence()) {}
  lemma ShortSentenceText() ensures Render(Ant, ShortSentence()) == "Some String with ${prop1} in it" {}
  lemma ShortSentenceResult() ensures Substitute(Ant, map["prop1" := "value1", "prop2" := "value2"], ShortSentence()) == "Some String with value1 in it" {}

  function Adjacent(): seq<Piece> { [Token("prop1"), Token("prop1"), Token("prop2")] }
  lemma AdjacentPlain() ensures Plain(Ant, Adjacent()) {}
  lemma AdjacentText() ensures Render(Ant, Adjacent()) == "${prop1}${prop1}${prop2}" {}
  lemma AdjacentResult() ensures Substitute(Ant, map["prop1" := "value1", "prop2" := "value2"], Adjacent()) == "value1value1value2" {}

  function SimilarSentence(): seq<Piece> { [Text("Some String with "), Token("prop1"), Text(" and "), Token("prop1-2"), Text(" in it")] }
  lemma SimilarSentencePlain() ensures Plain(Ant, SimilarSentence()) {}
  lemma SimilarSentenceText() ensures Render(Ant, SimilarSentence()) == "Some String with ${prop1} and ${prop1-2} in it" {}
  lemma SimilarSentenceResult() ensures Substitute(Ant, map["prop1" := "value1", "prop1-2" := "value2"], SimilarSentence()) == "Some String with value1 and value2 in it" {}

  function SimilarMixed(): seq<Piece> { [Text("A"), Token("prop1-2"), Text("B"), Token("prop1"), Text("C"), Token("prop2")] }
  lemma SimilarMixedPlain() ensures Plain(Ant, SimilarMixed()) {}
  lemma SimilarMixedText() ensures Render(Ant, SimilarMixed()) == "A${prop1-2}B${prop1}C${prop2}" {}
  lemma SimilarMixedResult() ensures Substitute(Ant, map["prop1" := "value1", "prop1-2" := "value2"], SimilarMixed()) == "Avalue2Bvalue1C${prop2}" {}

  /** Square braces: a known token is replaced, brackets included. */
  lemma SquareBracesKnownToken(tp: TemplateParser)
    requires tp == CreateSquareBracesStyleParser()
    ensures tp.Parse(map["fromAddress" := "ross.mason@symphonysoft.com"], "smtp://[fromAddress]")
         == "smtp://ross.mason@symphonysoft.com"
  {
    KnownAddressPlain();
    KnownAddressText();
    KnownAddressResult();
    ParseExample(SquareBraces, map["fromAddress" := "ross.mason@symphonysoft.com"], KnownAddress(), "smtp://[fromAddress]", "smtp://ross.mason@symphonysoft.com");
  }

  /** Square braces: an unknown token is kept, brackets included, and is no error. */
  lemma SquareBracesUnknownToken(tp: TemplateParser)
    requires tp == CreateSquareBracesStyleParser()
    ensures tp.Parse(map["fromAddress" := "ross.mason@symphonysoft.com"], "smtp://[toAddress]")
         == "smtp://[toAddress]"
  {
    UnknownAddressPlain();
    UnknownAddressText();
    UnknownAddressResult();
    ParseExample(SquareBraces, map["fromAddress" := "ross.mason@symphonysoft.com"], UnknownAddress(), "smtp://[toAddress]", "smtp://[toAddress]");
  }

  /** Ant style: two tokens in a sentence are both replaced. */
  lemma AntStyleSentence(tp: TemplateParser)
    requires tp == CreateAntStyleParser()
    ensures tp.Parse(map["prop1" := "value1", "prop2" := "value2"], "Some String with ${prop1} and ${prop2} in it")
         == "Some String with value1 and value2 in it"
  {
    SentencePlain();
    SentenceText();
    SentenceResult();
    ParseExample(Ant, map["prop1" := "value1", "prop2" := "value2"], Sentence(), "Some String with ${prop1} and ${prop2} in it", "Some String with value1 and value2 in it");
  }

  /** Ant style: one token in a sentence is replaced. */
  lemma AntStyleShortSentence(tp: TemplateParser)
    requires tp == CreateAntStyleParser()
    ensures tp.Parse(map["prop1" := "value1", "prop2" := "value2"], "Some String with ${prop1} in it")
         == "Some String with value1 in it"
  {
    ShortSentencePlain();
    ShortSentenceText();
    ShortSentenceResult();
    ParseExample(Ant, map["prop1" := "value1", "prop2" := "value2"], ShortSentence(), "Some String with ${prop1} in it", "Some String with value1 in it");
  }

  /** Ant style: repeated and adjacent tokens are each replaced. */
  lemma AntStyleAdjacentTokens(tp: TemplateParser)
    requires tp == CreateAntStyleParser()
    ensures tp.Parse(map["prop1" := "value1", "prop2" := "value2"], "${prop1}${prop1}${prop2}")
         == "value1value1value2"
  {
    AdjacentPlain();
    AdjacentText();
    AdjacentResult();
    ParseExample(Ant, map["prop1" := "value1", "prop2" := "value2"], Adjacent(), "${prop1}${prop1}${prop2}", "value1value1value2");
  }

  /** Ant style: `prop1` and `prop1-2` are different names. */
  lemma AntStyleSimilarNames(tp: TemplateParser)
    requires tp == CreateAntStyleParser()
    ensures tp.Parse(map["prop1" := "value1", "prop1-2" := "value2"], "Some String with ${prop1} and ${prop1-2} in it")
         == "Some String with value1 and value2 in it"
  {
    SimilarSentencePlain();
    SimilarSentenceText();
    SimilarSentenceResult();
    ParseExample(Ant, map["prop1" := "value1", "prop1-2" := "value2"], SimilarSentence(), "Some String with ${prop1} and ${prop1-2} in it", "Some String with value1 and value2 in it");
  }

  /** Ant style: similar names side by side, and an unknown name kept. */
  lemma AntStyleSimilarNamesUnknown(tp: TemplateParser)
    requires tp == CreateAntStyleParser()
    ensures tp.Parse(map["prop1" := "value1", "prop1-2" := "value2"], "A${prop1-2}B${prop1}C${prop2}")
         == "Avalue2Bvalue1C${prop2}"
  {
    SimilarMixedPlain();
    SimilarMixedText();
    SimilarMixedResult();
    ParseExample(Ant, map["prop1" := "value1", "prop1-2" := "value2"], SimilarMixed(), "A${prop1-2}B${prop1}C${prop2}", "Avalue2Bvalue1C${prop2}");
  }

  /** Ant style: a value is inserted verbatim, whatever it is (a home directory read from the environment). */
  lemma AntStyleVerbatimValue(tp: TemplateParser, props: map<string, string>, homeDir: string)
    requires tp == CreateAntStyleParser()
    ensures tp.Parse(props["homeDir" := homeDir], "${homeDir}/foo") == homeDir + "/foo"
  {
    ParseExample(Ant, props["homeDir" := homeDir], [Token("homeDir"), Text("/foo")], "${homeDir}/foo", homeDir + "/foo");
  }

  function WhitespaceValue(): string { "C:\\Documents and Settings\\" }
  function Whitespace(): seq<Piece> { [Text("start"), Token("whitespaceValue"), Text("end")] }
  lemma WhitespacePlain() ensures Plain(Ant, Whitespace()) {}
  lemma WhitespaceText() ensures Render(Ant, Whitespace()) == "start${whitespaceValue}end" {}

  /** Ant style: backslashes and spaces in a value are kept. */
  lemma AntStyleWhitespaceValue(tp: TemplateParser, props: map<string, string>)
    requires tp == CreateAntStyleParser()
    ensures tp.Parse(props["whitespaceValue" := WhitespaceValue()], "start${whitespaceValue}end")
         == "start" + WhitespaceValue() + "end"
  {
    WhitespacePlain();
    WhitespaceText();
    ParseExample(Ant, props["whitespaceValue" := WhitespaceValue()], Whitespace(),
      "start${whitespaceValue}end", "start" + WhitespaceValue() + "end");
  }

  /** Ant style: a list is parsed element by element; a null list gives an empty list. */
  lemma AntStyleList(tp: TemplateParser)
    requires tp == CreateAntStyleParser()
    ensures var r := tp.ParseList(map["prop1" := "value1", "prop2" := "value2"],
              Some(["Some String with ${prop1} and ${prop2} in it", "Some String with ${prop1} in it"]));
      |r| == 2 && r[0] == "Some String with value1 and value2 in it" && r[1] == "Some String with value1 in it"
    ensures |tp.ParseList(map["prop1" := "value1", "prop2" := "value2"], None)| == 0
  {
    AntStyleSentence(tp);
    AntStyleShortSentence(tp);
  }

  /** Ant style: the values of a map are parsed, its keys kept; a null map gives an empty map. */
  lemma AntStyleMap(tp: TemplateParser)
    requires tp == CreateAntStyleParser()
    ensures var r := tp.ParseMap(map["prop1" := "value1", "prop2" := "value2"],
              Some(map["value1" := "Some String with ${prop1} and ${prop2} in it", "value2" := "Some String with ${prop1} in it"]));
      && "value1" in r && r["value1"] == "Some String with value1 and value2 in it"
      && "value2" in r && r["value2"] == "Some String with value1 in it"
    ensures |tp.ParseMap(map["prop1" := "value1", "prop2" := "value2"], None)| == 0
  {
    AntStyleSentence(tp);
    AntStyleShortSentence(tp);
  }
}
