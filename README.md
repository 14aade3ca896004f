# Mule template parser, modelled in Dafny

A model of Mule's `TemplateParser` (`org.mule.util`), the component that
validates and expands property placeholders in configuration strings. A
parser is built for one of three delimiter styles: square braces
(`[name]`), Ant (`${name}`) and the Mule expression style (`#[expr]`). It
offers two operations:

- `isValid(text)` tells whether the delimiters in `text` are balanced and
  well placed for the style;
- `parse(props, x)` replaces every token whose name is a key of `props` by
  its value and leaves every other token, delimiters included, untouched.
  `x` is a string, a list of strings (parsed element by element) or a map
  of strings (values parsed, keys kept); a null list or map gives an empty
  one.

The behaviour is the one pinned by the parser's unit test,
`core/src/test/java/org/mule/util/TemplateParserTestCase.java`; the class
itself, `org/mule/util/TemplateParser.java`, is not part of this model.

## Layout

- `wrappers.dfy` — `Option`, standing for a Java reference that may be null.
- `styles.dfy` — `TemplateStyles`: a style is an optional marker character,
  an opening bracket and a closing bracket (prefix = marker + opening
  bracket, suffix = closing bracket); the three presets; the bracket depth
  of a scan.
- `validation.dfy` — `Validation`: `IsValid` as a left-to-right scan with a
  depth counter, and the declarative `WellFormed` it is proved equal to.
- `substitution.dfy` — `Substitution`: `Parse` on one string, and the
  description of a template as a sequence of text and token pieces against
  which `Parse` is proved.
- `collections.dfy` — `Collections`: `parse` on lists and maps.
- `template_parser.dfy` — `TemplateParsers`: the parser value, its
  operations and the three factories.
- `examples.dfy` — `TemplateParserExamples`: every validity verdict and
  every `parse` result of the unit test, as a lemma; the prefix and suffix
  assertions are the contracts of the factories in `template_parser.dfy`.

## Validity rule

The rule below is inferred from the verdicts of the unit test and meets
every one of them. With `open` the last character of the prefix,
`close` the suffix and `marker` the first character of a two-character
prefix, the string is scanned left to right with a depth counter:

- `open` at depth 0 must come immediately after the marker (when the style
  has one); the depth becomes 1;
- `open` at depth above 0 right after the marker is an embedded token and
  invalid; otherwise it is a bare bracket and the depth goes up;
- `close` at depth 0 is invalid; otherwise the depth goes down;
- the string is valid when the depth is 0 at the end.

The contract of `Validation.IsValid` states that this scan accepts exactly
the strings whose brackets balance and in which an opening bracket follows the
marker exactly when it starts a token.

Square braces allow same-style nesting: `TemplateParserTestCase.java:54`
asserts that `[[]]` is valid, so for a style without a marker validity is
plain bracket balance.

## Tokens in `parse`

A token starts at an occurrence of the prefix and ends at the closing
bracket that matches it (opening brackets inside the token are counted), so
its name is the whole text in between: `prop1` and `prop1-2` are different
names. When no matching close follows, the rest of the string is literal
text. The main theorem, `Substitution.ParseRender`, states `parse` on any plain
template of literal text and tokens (literal text without the prefix's
first character, token names without brackets; see its line under
"Left out"): each token is replaced on its own or kept, and values are
inserted verbatim.

## Model

| member | source | states |
|---|---|---|
| TemplateStyles.Style.Prefix | core/src/test/java/org/mule/util/TemplateParserTestCase.java:96-98 | the prefix is the opening bracket, preceded by the marker exactly when the style has one, so it is one or two characters long |
| TemplateStyles.Style.Suffix | core/src/test/java/org/mule/util/TemplateParserTestCase.java:96-99 | the suffix is the closing bracket alone |
| TemplateParsers.TemplateParser.IsValid | core/src/test/java/org/mule/util/TemplateParserTestCase.java:53-88 | the parser's `isValid` accepts exactly the strings well formed for its style |
| TemplateParsers.TemplateParser.Parse | core/src/test/java/org/mule/util/TemplateParserTestCase.java:101-125 | the parser's `parse` on a string: with no properties, or when the prefix's first character never occurs in the string, the string comes back unchanged; its results on templates of text and tokens are those of `Substitution.ParseRender` |
| TemplateParsers.TemplateParser.ParseList | core/src/test/java/org/mule/util/TemplateParserTestCase.java:140-146 | the parser's `parse` on a list: a null list gives an empty one; otherwise the same length, each element parsed by the parser's own `parse` |
| TemplateParsers.TemplateParser.ParseMap | core/src/test/java/org/mule/util/TemplateParserTestCase.java:160-166 | the parser's `parse` on a map: a null map gives an empty one; otherwise the same keys, each value parsed by the parser's own `parse` |
| TemplateParsers.CreateSquareBracesStyleParser | core/src/test/java/org/mule/util/TemplateParserTestCase.java:33-36 | the square-brace parser has prefix `[` and suffix `]`, and its delimiters are distinct |
| TemplateParsers.CreateAntStyleParser | core/src/test/java/org/mule/util/TemplateParserTestCase.java:96-99 | the Ant parser has prefix `${` and suffix `}`, and its delimiters are distinct |
| TemplateParsers.CreateMuleStyleParser | core/src/test/java/org/mule/util/TemplateParserTestCase.java:75-76 | the Mule expression parser has prefix `#[` and suffix `]`, and its delimiters are distinct |
| Validation.ValidFromIff | core/src/test/java/org/mule/util/TemplateParserTestCase.java:52-88 | the depth-counting scan, resumed at any position after a well-formed start, accepts exactly the well-formed strings |
| Validation.IsValid | core/src/test/java/org/mule/util/TemplateParserTestCase.java:53-88 | `isValid` holds iff the brackets balance (depth never negative, zero at the end) and, in a marker style, an opening bracket follows the marker exactly when it stands at depth 0 |
| Validation.UnmarkedValidityIsBalance | core/src/test/java/org/mule/util/TemplateParserTestCase.java:50-56 | for square braces, validity is plain bracket balance, so same-style nesting such as `[[]]` is valid and an unclosed bracket is not |
| Validation.UnmarkedOpenIsInvalid | core/src/test/java/org/mule/util/TemplateParserTestCase.java:64-68 | an opening bracket at depth 0 not immediately preceded by the marker (`&{}`, `{}`, `$ {}`, `# []`) makes the string invalid |
| Validation.EmbeddedTokenIsInvalid | core/src/test/java/org/mule/util/TemplateParserTestCase.java:81-88 | a marker plus opening bracket inside an open token (an embedded token) makes the string invalid |
| Validation.ValidConcat | core/src/test/java/org/mule/util/TemplateParserTestCase.java:62-63 | two valid strings written one after the other form a valid string (`${}${}`, `#[]   #[]`) |
| Substitution.MatchingClose | core/src/test/java/org/mule/util/TemplateParserTestCase.java:176-182 | the position found for the end of a token holds the closing bracket |
| Substitution.MatchingCloseBalances | core/src/test/java/org/mule/util/TemplateParserTestCase.java:176-182 | the close found is the one that brings the token depth back to zero, the depth staying positive until then; with none found it never returns to zero |
| Substitution.ParseWithoutProperties | core/src/test/java/org/mule/util/TemplateParserTestCase.java:44-46 | with no properties every token is unknown and parsing returns its input unchanged |
| Substitution.ParseText | core/src/test/java/org/mule/util/TemplateParserTestCase.java:105-107 | literal text without the prefix's first character is copied to the output as it is |
| Substitution.ParseToken | core/src/test/java/org/mule/util/TemplateParserTestCase.java:38-46 | a token is replaced together with its delimiters by its value when its name is a key, and kept verbatim otherwise |
| Substitution.ParseUnmarked | core/src/test/java/org/mule/util/TemplateParserTestCase.java:113-118 | a string in which the prefix's first character never occurs, such as the `/foo` after a token, comes back unchanged |
| Substitution.ParseRender | core/src/test/java/org/mule/util/TemplateParserTestCase.java:101-125 | parsing a template of text and tokens substitutes every token on its own (repeated and adjacent ones included), inserts values verbatim and keeps unknown tokens |
| Substitution.ParseIdempotent | core/src/test/java/org/mule/util/TemplateParserTestCase.java:120-125 | inserted values are not scanned again: for a template built from Plain pieces (literal text without the prefix's first character, token names without brackets) and values without the prefix's first character, parsing the result a second time changes nothing (the test itself parses only once) |
| Collections.ParseSeq | core/src/test/java/org/mule/util/TemplateParserTestCase.java:140-142 | each element of a list is parsed, in order, and the length is kept |
| Collections.ParseList | core/src/test/java/org/mule/util/TemplateParserTestCase.java:140-146 | a list is parsed element by element keeping length and order; a null list gives an empty list |
| Collections.ParseMap | core/src/test/java/org/mule/util/TemplateParserTestCase.java:160-166 | a map keeps exactly its keys and each value is parsed; a null map gives an empty map |
| Collections.ParseListWithoutProperties | core/src/test/java/org/mule/util/TemplateParserTestCase.java:136-142 | with no properties a list comes back unchanged |
| Collections.ParseMapWithoutProperties | core/src/test/java/org/mule/util/TemplateParserTestCase.java:156-162 | with no properties a map comes back unchanged |
| TemplateParserExamples.SquareBracesValidation | core/src/test/java/org/mule/util/TemplateParserTestCase.java:52-55 | `[][]` and `[[]]` are valid and `[[][]` is not |
| TemplateParserExamples.AntStyleValidation | core/src/test/java/org/mule/util/TemplateParserTestCase.java:61-68 | the seven Ant-style validity verdicts of the test |
| TemplateParserExamples.MuleStyleValidation | core/src/test/java/org/mule/util/TemplateParserTestCase.java:75-82 | the first seven Mule-style validity verdicts of the test |
| TemplateParserExamples.MuleStyleBareBrackets | core/src/test/java/org/mule/util/TemplateParserTestCase.java:84-85 | bare brackets inside an expression leave it valid |
| TemplateParserExamples.MuleStyleStrayClose | core/src/test/java/org/mule/util/TemplateParserTestCase.java:86 | a closing bracket after the expression has closed makes the string invalid |
| TemplateParserExamples.MuleStyleEmbedded | core/src/test/java/org/mule/util/TemplateParserTestCase.java:87-88 | an expression inside an expression makes the string invalid |
| TemplateParserExamples.SquareBracesKnownToken | core/src/test/java/org/mule/util/TemplateParserTestCase.java:38-43 | `smtp://[fromAddress]` becomes `smtp://ross.mason@symphonysoft.com` |
| TemplateParserExamples.SquareBracesUnknownToken | core/src/test/java/org/mule/util/TemplateParserTestCase.java:44-46 | `smtp://[toAddress]` is left as it is |
| TemplateParserExamples.AntStyleSentence | core/src/test/java/org/mule/util/TemplateParserTestCase.java:105-107 | both tokens of the sentence are replaced |
| TemplateParserExamples.AntStyleShortSentence | core/src/test/java/org/mule/util/TemplateParserTestCase.java:138-142 | the one token of the second list element is replaced |
| TemplateParserExamples.AntStyleAdjacentTokens | core/src/test/java/org/mule/util/TemplateParserTestCase.java:109-111 | `${prop1}${prop1}${prop2}` becomes `value1value1value2` |
| TemplateParserExamples.AntStyleVerbatimValue | core/src/test/java/org/mule/util/TemplateParserTestCase.java:113-118 | for any home directory value, `${homeDir}/foo` becomes that value followed by `/foo` |
| TemplateParserExamples.AntStyleWhitespaceValue | core/src/test/java/org/mule/util/TemplateParserTestCase.java:120-125 | a value with backslashes and spaces is inserted verbatim |
| TemplateParserExamples.AntStyleSimilarNames | core/src/test/java/org/mule/util/TemplateParserTestCase.java:173-179 | `prop1` and `prop1-2` are looked up as different names |
| TemplateParserExamples.AntStyleSimilarNamesUnknown | core/src/test/java/org/mule/util/TemplateParserTestCase.java:180-182 | `A${prop1-2}B${prop1}C${prop2}` becomes `Avalue2Bvalue1C${prop2}` |
| TemplateParserExamples.AntStyleList | core/src/test/java/org/mule/util/TemplateParserTestCase.java:129-146 | the two-element list is parsed element by element; a null list gives size 0 |
| TemplateParserExamples.AntStyleMap | core/src/test/java/org/mule/util/TemplateParserTestCase.java:150-166 | both map values are parsed under their keys; a null map gives size 0 |

## Left out

- `org/mule/util/TemplateParser.java` is not part of this model; the model follows the verdicts and results of its unit test.
- Custom delimiter pairs and the construction error for an empty or ambiguous pair: the test only builds the three presets.
- Java exceptions and their messages: `isValid` is a boolean function, and `parse` never fails.
- `System.getProperty("user.home")` is an environment read; `AntStyleVerbatimValue` takes the home directory as an arbitrary string.
- Where the property map comes from (configuration, session) is outside the parser; `props` is an immutable `map<string, string>`.
- Raw Java `List` and `Map` types: lists are `seq<string>`, maps are `map<string, string>`, and a null argument is `None`.
- Substitution.ParseRender: stated for templates whose literal text has no prefix-first character and whose token names contain no bracket, which covers every template of the test (literal text with a lone `$`, such as `cost $5 for ${item}`, is parsed by `Parse` but is outside the theorem); `Parse` is defined on all strings, but unterminated and nested tokens are not pinned by the test and no property is claimed for them.
- Substitution.ParseIdempotent: stated, like `ParseRender`, for templates built from Plain pieces only; on other strings a second parse can change the result (with Ant style and `x` mapped to `{y}`, `$${x}` parses to `${y}`, which parses again to the value of `y`), and the test never parses twice.
- The CXF exception-handling test (`modules/cxf/src/test/java/org/mule/module/cxf/CxfExceptionHandlingTestCase.java`) is a network and messaging integration test with nothing sequential to model.
