/**
  `isValid`: are the delimiters of a string balanced and well placed?

  The string is scanned left to right with a depth counter. An opening
  bracket at depth 0 starts a token, and in a style with a marker it must
  come immediately after the marker. An opening bracket inside a token is
  either a bare bracket (depth goes up) or, when the marker stands right
  before it, an embedded token, which is refused. A closing bracket at
  depth 0 is refused; otherwise it lowers the depth. The string is valid
  when the depth is back to 0 at its end.
 */
module Validation {
  import opened TemplateStyles

  /** Does the style's marker stand immediately before position i? */
  predicate MarkedAt(st: Style, s: string, i: nat)
    requires i < |s|
  {
    st.marker.Some? && i > 0 && s[i - 1] == st.marker.value
  }

  /** The scan from position i, with `depth` brackets still open. */
  function ValidFrom(st: Style, s: string, i: nat, depth: nat): bool
    requires i <= |s|
    decreases |s| - i
  {
    if i == |s| then depth == 0
    else if s[i] == st.open then
      if depth == 0 && st.marker.Some? && !MarkedAt(st, s, i) then
        false  // a token must start with the marker immediately before its bracket
      else if depth > 0 && MarkedAt(st, s, i) then
        false  // a token embedded in another token
      else
        ValidFrom(st, s, i + 1, depth + 1)
    else if s[i] == st.close then
      depth > 0 && ValidFrom(st, s, i + 1, depth - 1)
    else
      ValidFrom(st, s, i + 1, depth)
  }

  /** `isValid`: the scan from the start; it accepts exactly the well-formed strings. */
  function IsValid(st: Style, s: string): (b: bool)
    ensures b <==> WellFormed(st, s)
  {
    ValidFromIff(st, s, 0, 0);
    ValidFrom(st, s, 0, 0)
  }

  /*
    A declarative reference for the scan.
   */

  /** Brackets balance: the depth never goes negative and ends at 0. */
  ghost predicate Balanced(st: Style, s: string)
  {
    && st.Depth(s, |s|) == 0
    && forall k :: 0 <= k <= |s| ==> st.Depth(s, k) >= 0
  }

  /**
    In a style with a marker, an opening bracket is preceded by the marker
    exactly when it starts a token, that is, when it stands at depth 0.
   */
  ghost predicate OpenPlaced(st: Style, s: string, i: nat)
    requires i < |s|
  {
    s[i] == st.open && st.marker.Some? ==> (MarkedAt(st, s, i) <==> st.Depth(s, i) == 0)
  }

  ghost predicate WellFormed(st: Style, s: string)
  {
    && Balanced(st, s)
    && forall i :: 0 <= i < |s| ==> OpenPlaced(st, s, i)
  }

  /** The scan from position i agrees with the reference, given that the part before i is fine. */
  lemma {:induction false} ValidFromIff(st: Style, s: string, i: nat, depth: nat)
    requires i <= |s|
    requires depth == st.Depth(s, i)
    requires forall k :: 0 <= k <= i ==> st.Depth(s, k) >= 0
    requires forall j :: 0 <= j < i ==> OpenPlaced(st, s, j)
    ensures ValidFrom(st, s, i, depth) <==> WellFormed(st, s)
    decreases |s| - i
  {
    if i < |s| {
      if s[i] == st.open {
        if (depth == 0 && st.marker.Some? && !MarkedAt(st, s, i)) || (depth > 0 && MarkedAt(st, s, i)) {
          assert !OpenPlaced(st, s, i);
        } else {
          ValidFromIff(st, s, i + 1, depth + 1);
        }
      } else if s[i] == st.close {
        if depth == 0 {
          assert st.Depth(s, i + 1) < 0;
        } else {
          ValidFromIff(st, s, i + 1, depth - 1);
        }
      } else {
        ValidFromIff(st, s, i + 1, depth);
      }
    }
  }

  /** Without a marker (square braces) validity is plain bracket balance. */
  lemma UnmarkedValidityIsBalance(st: Style, s: string)
    requires st.marker.None?
    ensures IsValid(st, s) <==> Balanced(st, s)
  {
  }

  /** In a style with a marker, an opening bracket not preceded by the marker at depth 0 makes the string invalid. */
  lemma UnmarkedOpenIsInvalid(st: Style, s: string, i: nat)
    requires st.marker.Some? && i < |s| && s[i] == st.open
    requires st.Depth(s, i) == 0 && !MarkedAt(st, s, i)
    ensures !IsValid(st, s)
  {
    assert !OpenPlaced(st, s, i);
  }

  /** In a style with a marker, a marked opening bracket inside a token (an embedded token) makes the string invalid. */
  lemma EmbeddedTokenIsInvalid(st: Style, s: string, i: nat)
    requires i < |s| && s[i] == st.open
    requires st.Depth(s, i) > 0 && MarkedAt(st, s, i)
    ensures !IsValid(st, s)
  {
    assert !OpenPlaced(st, s, i);
  }

  /** Two valid strings written one after the other form a valid string. */
  lemma ValidConcat(st: Style, a: string, b: string)
    requires IsValid(st, a) && IsValid(st, b)
    ensures IsValid(st, a + b)
  {
    var s := a + b;
    forall k | 0 <= k <= |s|
      ensures st.Depth(s, k) >= 0
    {
      if k <= |a| {
        DepthPrefix(st, a, b, k);
      } else {
        DepthConcat(st, a, b, k - |a|);
      }
    }
    DepthConcat(st, a, b, |b|);
    forall i | 0 <= i < |s|
      ensures OpenPlaced(st, s, i)
    {
      if i < |a| {
        DepthPrefix(st, a, b, i);
        assert s[i] == a[i];
        assert i > 0 ==> s[i - 1] == a[i - 1];
        assert OpenPlaced(st, a, i);
      } else {
        var j := i - |a|;
        DepthConcat(st, a, b, j);
        assert s[i] == b[j];
        assert j > 0 ==> s[i - 1] == b[j - 1];
        // for j == 0 this rules out b starting with an opening bracket
        assert OpenPlaced(st, b, j);
      }
    }
  }
}
