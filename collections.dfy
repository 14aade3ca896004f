/**
  `parse` on a list of strings and on a map of strings: the single-string
  substitution applied element by element. An absent (null) collection
  yields an empty one.
 */
module Collections {
  import opened Wrappers
  import opened TemplateStyles
  import opened Substitution

  /** Each element parsed, in order. */
  function ParseSeq(st: Style, props: map<string, string>, xs: seq<string>): (r: seq<string>)
    ensures |r| == |xs|
    ensures forall i :: 0 <= i < |xs| ==> r[i] == Parse(st, props, xs[i])
    decreases |xs|
  {
    if xs == [] then [] else [Parse(st, props, xs[0])] + ParseSeq(st, props, xs[1..])
  }

  function ParseList(st: Style, props: map<string, string>, xs: Option<seq<string>>): (r: seq<string>)
    ensures xs.None? ==> r == []
    ensures xs.Some? ==> |r| == |xs.value|
    ensures xs.Some? ==> forall i :: 0 <= i < |r| ==> r[i] == Parse(st, props, xs.value[i])
  {
    match xs
    case None => []
    case Some(l) => ParseSeq(st, props, l)
  }

  /** Keys are kept as they are; only the values are parsed. */
  function ParseMap(st: Style, props: map<string, string>, m: Option<map<string, string>>): (r: map<string, string>)
    ensures m.None? ==> r == map[]
    ensures m.Some? ==> r.Keys == m.value.Keys
    ensures m.Some? ==> forall k :: k in r ==> r[k] == Parse(st, props, m.value[k])
  {
    match m
    case None => map[]
    case Some(mm) => map k | k in mm :: Parse(st, props, mm[k])
  }

  /** With no properties, a list comes back unchanged. */
  lemma ParseListWithoutProperties(st: Style, xs: seq<string>)
    ensures ParseList(st, map[], Some(xs)) == xs
  {
    var r := ParseList(st, map[], Some(xs));
    forall i | 0 <= i < |xs|
      ensures r[i] == xs[i]
    {
      ParseWithoutProperties(st, xs[i]);
    }
  }

  /** With no properties, a map comes back unchanged. */
  lemma ParseMapWithoutProperties(st: Style, m: map<string, string>)
    ensures ParseMap(st, map[], Some(m)) == m
  {
    var r := ParseMap(st, map[], Some(m));
    forall k | k in m
      ensures r[k] == m[k]
    {
      ParseWithoutProperties(st, m[k]);
    }
  }
}
