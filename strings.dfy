/** String helpers used by the model: blank checks (as in StringUtils.isBlank),
    substring containment (as in String.contains) and the rendering of a list
    of names (as in AbstractCollection.toString). */
module Strings {

  /** Character.isWhitespace: the Unicode space, line and paragraph
      separators other than the non-breaking ones (U+00A0, U+2007, U+202F),
      and the controls U+0009 to U+000D and U+001C to U+001F. */
  predicate IsWhitespace(c: char) {
    || '\U{9}' <= c <= '\U{D}'
    || '\U{1C}' <= c <= '\U{20}'
    || c == '\U{1680}'
    || '\U{2000}' <= c <= '\U{2006}'
    || '\U{2008}' <= c <= '\U{200A}'
    || c == '\U{2028}' || c == '\U{2029}' || c == '\U{205F}' || c == '\U{3000}'
  }

  /** Empty, or made of whitespace only. */
  predicate IsBlank(s: string) {
    forall i :: 0 <= i < |s| ==> IsWhitespace(s[i])
  }

  /** `t` occurs in `s` as a contiguous piece. */
  predicate Contains(s: string, t: string) {
    exists i :: 0 <= i <= |s| - |t| && OccursAt(s, t, i)
  }

  predicate OccursAt(s: string, t: string, i: int)
    requires 0 <= i <= |s| - |t|
  {
    s[i..i + |t|] == t
  }

  lemma ContainsPrefix(t: string, u: string)
    ensures Contains(t + u, t)
  {
    assert OccursAt(t + u, t, 0);
  }

  lemma ContainsSelf(s: string)
    ensures Contains(s, s)
  {
    assert OccursAt(s, s, 0);
  }

  /** The names separated by ", ". */
  function Join(xs: seq<string>): string {
    if |xs| == 0 then ""
    else if |xs| == 1 then xs[0]
    else xs[0] + ", " + Join(xs[1..])
  }

  /** A list of names as Java prints it: "[a, b]". */
  function ListString(xs: seq<string>): string {
    "[" + Join(xs) + "]"
  }
}
