/**
  Delimiter styles of the template parser.

  A style is a prefix and a suffix. Every style the parser offers has a
  one-character suffix (the closing bracket) and a prefix that is either that
  bracket's opening partner alone (`[`) or a marker character immediately
  followed by it (`${`, `#[`). The style is therefore stored as an optional
  marker, an opening bracket and a closing bracket.
 */
module TemplateStyles {
  import opened Wrappers

  datatype Style = Style(marker: Option<char>, open: char, close: char) {

    /** The text that starts a token. */
    function Prefix(): (p: string)
      ensures 1 <= |p| <= 2 && p[|p| - 1] == open
      ensures |p| == 2 <==> marker.Some?
      ensures marker.Some? ==> p[0] == marker.value
    {
      if marker.Some? then [marker.value, open] else [open]
    }

    /** The text that ends a token; with sound delimiters it shares no character with the prefix. */
    function Suffix(): (p: string)
      ensures |p| == 1 && p[0] == close
    {
      [close]
    }

    /** The first character of the prefix: the marker, or the bracket itself. */
    function Lead(): (c: char)
      ensures c == Prefix()[0]
    {
      if marker.Some? then marker.value else open
    }

    /** Prefix and suffix are non-empty and no delimiter character plays two roles. */
    predicate Sound()
    {
      && open != close
      && (marker.Some? ==> marker.value != open && marker.value != close)
    }

    /** How one character moves the bracket depth of a scan. */
    function Step(c: char): (d: int)
      ensures -1 <= d <= 1
      ensures d == 1 <==> c == open
      ensures Sound() ==> (d == -1 <==> c == close)
    {
      if c == open then 1 else if c == close then -1 else 0
    }

    /**
      The bracket depth after the first k characters of s: opening brackets
      seen minus closing brackets seen.
     */
    function Depth(s: string, k: nat): int
      requires k <= |s|
    {
      if k == 0 then 0 else Depth(s, k - 1) + Step(s[k - 1])
    }
  }

  /** Square-brace style: `[name]`. */
  const SquareBraces := Style(None, '[', ']')

  /** Ant style: `${name}`. */
  const Ant := Style(Some('$'), '{', '}')

  /** Mule expression style: `#[expression]`. */
  const Mule := Style(Some('#'), '[', ']')

  /** The scan depth of a concatenation continues from the depth of its first part. */
  lemma {:induction false} DepthConcat(st: Style, a: string, b: string, k: nat)
    requires k <= |b|
    ensures st.Depth(a + b, |a| + k) == st.Depth(a, |a|) + st.Depth(b, k)
    decreases k
  {
    if k == 0 {
      DepthPrefix(st, a, b, |a|);
    } else {
      DepthConcat(st, a, b, k - 1);
      assert (a + b)[|a| + k - 1] == b[k - 1];
    }
  }

  /** The depth of a prefix of a string only depends on that prefix. */
  lemma {:induction false} DepthPrefix(st: Style, a: string, b: string, k: nat)
    requires k <= |a|
    ensures st.Depth(a + b, k) == st.Depth(a, k)
    decreases k
  {
    if k > 0 {
      DepthPrefix(st, a, b, k - 1);
      assert (a + b)[k - 1] == a[k - 1];
    }
  }
}
