/**
  The template parser: a delimiter style together with the operations
  `isValid` and `parse`, built through one factory per preset style.
 */
module TemplateParsers {
  import opened Wrappers
  import opened TemplateStyles
  import Validation
  import Substitution
  import Collections

  datatype TemplateParser = TemplateParser(style: Style) {

    /** `isValid`: balanced delimiters, and the marker exactly before the brackets that start tokens. */
    function IsValid(s: string): (b: bool)
      ensures b <==> Validation.WellFormed(style, s)
    {
      Validation.IsValid(style, s)
    }

    /** `parse` on one string; without properties, or without a token start, nothing changes. */
    function Parse(props: map<string, string>, s: string): (r: string)
      ensures props == map[] ==> r == s
      ensures style.Lead() !in s ==> r == s
    {
      Substitution.ParseWithoutProperties(style, s);
      Substitution.ParseUnmarked(style, props, s);
      Substitution.Parse(style, props, s)
    }

    /** `parse` on a list: each element parsed in order; a null list gives an empty one. */
    function ParseList(props: map<string, string>, xs: Option<seq<string>>): (r: seq<string>)
      ensures xs.None? ==> r == []
      ensures xs.Some? ==> |r| == |xs.value| && forall i :: 0 <= i < |r| ==> r[i] == Parse(props, xs.value[i])
    {
      Collections.ParseList(style, props, xs)
    }

    /** `parse` on a map: the same keys, each value parsed; a null map gives an empty one. */
    function ParseMap(props: map<string, string>, m: Option<map<string, string>>): (r: map<string, string>)
      ensures m.None? ==> r == map[]
      ensures m.Some? ==> r.Keys == m.value.Keys && forall k :: k in r ==> r[k] == Parse(props, m.value[k])
    {
      Collections.ParseMap(style, props, m)
    }
  }

  function CreateSquareBracesStyleParser(): (tp: TemplateParser)
    ensures tp.style.Prefix() == "[" && tp.style.Suffix() == "]"
    ensures tp.style.Sound()
  {
    TemplateParser(SquareBraces)
  }

  function CreateAntStyleParser(): (tp: TemplateParser)
    ensures tp.style.Prefix() == "${" && tp.style.Suffix() == "}"
    ensures tp.style.Sound()
  {
    TemplateParser(Ant)
  }

  function CreateMuleStyleParser(): (tp: TemplateParser)
    ensures tp.style.Prefix() == "#[" && tp.style.Suffix() == "]"
    ensures tp.style.Sound()
  {
    TemplateParser(Mule)
  }
}
