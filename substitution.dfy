/**
  `parse` on a single string: every token whose name is a key of the
  property map is replaced, delimiters included, by that key's value; every
  other token is left as it is.

  A token starts where the style's prefix occurs and ends at the closing
  bracket that matches it: opening brackets inside the token are counted,
  so that the token name is the whole text between the prefix and the
  matching suffix. When no matching suffix follows, the rest of the string
  is kept as literal text.
 */
module Substitution {
  import opened Wrappers
  import opened TemplateStyles

  /**
    The position of the closing bracket that brings `depth` open brackets
    back to zero, scanning from position i; None if the string ends first.
   */
  function MatchingClose(st: Style, s: string, i: nat, depth: nat): (r: Option<nat>)
    requires i <= |s| && depth > 0
    ensures r.Some? ==> i <= r.value < |s| && s[r.value] == st.close
    decreases |s| - i
  {
    if i == |s| then None
    else if s[i] == st.open then MatchingClose(st, s, i + 1, depth + 1)
    else if s[i] == st.close then
      if depth == 1 then Some(i) else MatchingClose(st, s, i + 1, depth - 1)
    else MatchingClose(st, s, i + 1, depth)
  }

  /**
    The close found is the matching one: the depth stays above where the
    scan started until that close brings it back, and when none is found
    the depth never comes back.
   */
  lemma {:induction false} MatchingCloseBalances(st: Style, s: string, i: nat, depth: nat)
    requires i <= |s| && depth > 0
    ensures var r := MatchingClose(st, s, i, depth);
      && (r.Some? ==> depth + st.Depth(s, r.value + 1) - st.Depth(s, i) == 0)
      && forall k :: i <= k <= (if r.Some? then r.value else |s|) ==>
           depth + st.Depth(s, k) - st.Depth(s, i) > 0
    decreases |s| - i
  {
    if i < |s| {
      if s[i] == st.open {
        MatchingCloseBalances(st, s, i + 1, depth + 1);
      } else if s[i] == st.close {
        if depth > 1 {
          MatchingCloseBalances(st, s, i + 1, depth - 1);
        }
      } else {
        MatchingCloseBalances(st, s, i + 1, depth);
      }
    }
  }

  /**
    `parse` on one string: every token whose name is a key of props is
    replaced, delimiters included, by its value; everything else is copied.
    Its properties are the lemmas below.
   */
  function Parse(st: Style, props: map<string, string>, s: string): string
    decreases |s|
  {
    if s == [] then []
    else if st.Prefix() <= s then
      var p := |st.Prefix()|;
      match MatchingClose(st, s, p, 1)
      case None => s  // unterminated token: the rest is literal text
      case Some(e) =>
        var name := s[p..e];
        (if name in props then props[name] else s[..e + 1]) + Parse(st, props, s[e + 1..])
    else [s[0]] + Parse(st, props, s[1..])
  }

  /** With no properties, parsing gives back its input. */
  lemma {:induction false} ParseWithoutProperties(st: Style, s: string)
    ensures Parse(st, map[], s) == s
    decreases |s|
  {
    if s != [] {
      if st.Prefix() <= s {
        var p := |st.Prefix()|;
        match MatchingClose(st, s, p, 1)
        case None =>
        case Some(e) =>
          ParseWithoutProperties(st, s[e + 1..]);
          assert s[..e + 1] + s[e + 1..] == s;
      } else {
        ParseWithoutProperties(st, s[1..]);
        assert [s[0]] + s[1..] == s;
      }
    }
  }

  /*
    A template described as a sequence of pieces: literal text and tokens.
   */

  datatype Piece = Text(text: string) | Token(name: string)

  /** The template text the pieces stand for. */
  function Render(st: Style, pieces: seq<Piece>): string
    decreases |pieces|
  {
    if pieces == [] then []
    else RenderPiece(st, pieces[0]) + Render(st, pieces[1..])
  }

  function RenderPiece(st: Style, piece: Piece): string
  {
    match piece
    case Text(t) => t
    case Token(n) => st.Prefix() + n + st.Suffix()
  }

  /** The intended result: known tokens replaced by their value, unknown tokens kept verbatim. */
  function Substitute(st: Style, props: map<string, string>, pieces: seq<Piece>): string
    decreases |pieces|
  {
    if pieces == [] then []
    else SubstitutePiece(st, props, pieces[0]) + Substitute(st, props, pieces[1..])
  }

  function SubstitutePiece(st: Style, props: map<string, string>, piece: Piece): string
  {
    match piece
    case Text(t) => t
    case Token(n) => if n in props then props[n] else RenderPiece(st, piece)
  }

  /**
    Pieces that render unambiguously: literal text never contains the first
    character of the prefix, and token names contain no bracket.
   */
  predicate Plain(st: Style, pieces: seq<Piece>)
    decreases |pieces|
  {
    pieces == [] || (PlainPiece(st, pieces[0]) && Plain(st, pieces[1..]))
  }

  predicate PlainPiece(st: Style, piece: Piece)
  {
    if piece.Text? then st.Lead() !in piece.text
    else st.open !in piece.name && st.close !in piece.name
  }

  /** A character that cannot start the prefix is copied and the scan moves on. */
  lemma ParseLiteralStep(st: Style, props: map<string, string>, s: string)
    requires s != [] && s[0] != st.Lead()
    ensures Parse(st, props, s) == [s[0]] + Parse(st, props, s[1..])
  {
    assert !(st.Prefix() <= s);
  }

  /** Literal text without the prefix's first character is copied as it is. */
  lemma {:induction false} ParseText(st: Style, props: map<string, string>, t: string, rest: string)
    requires st.Lead() !in t
    ensures Parse(st, props, t + rest) == t + Parse(st, props, rest)
    decreases |t|
  {
    if t == [] {
      assert t + rest == rest;
    } else {
      var s := t + rest;
      assert s[0] == t[0] && s[1..] == t[1..] + rest;
      ParseLiteralStep(st, props, s);
      ParseText(st, props, t[1..], rest);
      assert t == [t[0]] + t[1..];
    }
  }

  /** A string in which no token can start comes back unchanged. */
  lemma ParseUnmarked(st: Style, props: map<string, string>, s: string)
    ensures st.Lead() !in s ==> Parse(st, props, s) == s
  {
    if st.Lead() !in s {
      ParseText(st, props, s, []);
      assert s + [] == s;
    }
  }

  /** Inside a name without brackets, the scan for the matching close runs to the first closing bracket. */
  lemma {:induction false} MatchingCloseSkips(st: Style, s: string, i: nat, j: nat)
    requires i <= j < |s| && s[j] == st.close && st.open != st.close
    requires forall k :: i <= k < j ==> s[k] != st.open && s[k] != st.close
    ensures MatchingClose(st, s, i, 1) == Some(j)
    decreases j - i
  {
    if i < j {
      MatchingCloseSkips(st, s, i + 1, j);
    }
  }

  /** A token is replaced by its value when its name is known, and kept otherwise. */
  lemma ParseToken(st: Style, props: map<string, string>, n: string, rest: string)
    requires st.Sound() && st.open !in n && st.close !in n
    ensures Parse(st, props, RenderPiece(st, Token(n)) + rest)
         == SubstitutePiece(st, props, Token(n)) + Parse(st, props, rest)
  {
    var pre := st.Prefix();
    var p := |pre|;
    var tok := pre + n + st.Suffix();
    var s := tok + rest;
    var e := p + |n|;
    assert s[..p] == pre;
    assert s[e] == st.close;
    forall k | p <= k < e
      ensures s[k] != st.open && s[k] != st.close
    {
      assert s[k] == n[k - p];
    }
    MatchingCloseSkips(st, s, p, e);
    assert s[p..e] == n;
    assert s[..e + 1] == tok;
    assert s[e + 1..] == rest;
  }

  /**
    Parsing the text of a template built from plain pieces gives the
    intended substitution: each token is replaced or kept on its own, and
    the values are inserted verbatim.
   */
  lemma {:induction false} ParseRender(st: Style, props: map<string, string>, pieces: seq<Piece>)
    requires st.Sound() && Plain(st, pieces)
    ensures Parse(st, props, Render(st, pieces)) == Substitute(st, props, pieces)
    decreases |pieces|
  {
    if pieces != [] {
      var rest := Render(st, pieces[1..]);
      assert PlainPiece(st, pieces[0]);
      match pieces[0] {
        case Text(t) => ParseText(st, props, t, rest);
        case Token(n) => ParseToken(st, props, n, rest);
      }
      ParseRender(st, props, pieces[1..]);
    }
  }

  /*
    Parsing twice.
   */

  /** The pieces after substitution: every known token has become literal text. */
  function Resolve(props: map<string, string>, pieces: seq<Piece>): (r: seq<Piece>)
    ensures |r| == |pieces|
    ensures forall i :: 0 <= i < |r| ==> r[i] == ResolvePiece(props, pieces[i])
    decreases |pieces|
  {
    if pieces == [] then [] else [ResolvePiece(props, pieces[0])] + Resolve(props, pieces[1..])
  }

  function ResolvePiece(props: map<string, string>, piece: Piece): Piece
  {
    match piece
    case Token(n) => if n in props then Text(props[n]) else piece
    case Text(_) => piece
  }

  /** Resolving plain pieces with values free of the prefix's first character keeps them plain. */
  lemma {:induction false} PlainResolve(st: Style, props: map<string, string>, pieces: seq<Piece>)
    requires Plain(st, pieces)
    requires forall n :: n in props ==> st.Lead() !in props[n]
    ensures Plain(st, Resolve(props, pieces))
    decreases |pieces|
  {
    if pieces != [] {
      var r := Resolve(props, pieces);
      assert r[1..] == Resolve(props, pieces[1..]);
      PlainResolve(st, props, pieces[1..]);
    }
  }

  /** Substituting is rendering the resolved pieces. */
  lemma {:induction false} RenderResolve(st: Style, props: map<string, string>, pieces: seq<Piece>)
    ensures Render(st, Resolve(props, pieces)) == Substitute(st, props, pieces)
    decreases |pieces|
  {
    if pieces != [] {
      var r := Resolve(props, pieces);
      assert r[1..] == Resolve(props, pieces[1..]);
      RenderResolve(st, props, pieces[1..]);
    }
  }

  /** Substituting the resolved pieces again changes nothing: the tokens left are the unknown ones. */
  lemma {:induction false} SubstituteResolve(st: Style, props: map<string, string>, pieces: seq<Piece>)
    ensures Substitute(st, props, Resolve(props, pieces)) == Substitute(st, props, pieces)
    decreases |pieces|
  {
    if pieces != [] {
      var r := Resolve(props, pieces);
      assert r[1..] == Resolve(props, pieces[1..]);
      SubstituteResolve(st, props, pieces[1..]);
    }
  }

  /**
    When no value contains the first character of the prefix, a second
    parse of a parsed template is a no-op.
   */
  lemma ParseIdempotent(st: Style, props: map<string, string>, pieces: seq<Piece>)
    requires st.Sound() && Plain(st, pieces)
    requires forall n :: n in props ==> st.Lead() !in props[n]
    ensures Parse(st, props, Parse(st, props, Render(st, pieces))) == Parse(st, props, Render(st, pieces))
  {
    var r := Resolve(props, pieces);
    PlainResolve(st, props, pieces);
    ParseRender(st, props, pieces);
    RenderResolve(st, props, pieces);
    ParseRender(st, props, r);
    SubstituteResolve(st, props, pieces);
  }
}
