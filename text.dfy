/** The part of JavaScript's `String.prototype.trim` that the tracker relies on:
    removing white space from both ends of the task name. */
module Text {

  /** The code points ECMAScript counts as WhiteSpace or LineTerminator
      (tab, line feed, vertical tab, form feed, carriage return, space,
      no-break space, the byte order mark, the line and paragraph separators
      and the other Unicode "Zs" space separators). */
  predicate IsWhitespace(c: char) {
    || c == '\t' || c == '\n' || c == '\U{000B}' || c == '\U{000C}' || c == '\r'
    || c == ' ' || c == '\U{00A0}' || c == '\U{1680}'
    || ('\U{2000}' <= c <= '\U{200A}')
    || c == '\U{2028}' || c == '\U{2029}' || c == '\U{202F}' || c == '\U{205F}'
    || c == '\U{3000}' || c == '\U{FEFF}'
  }

  /** Every character of `s` is white space (the empty string included). */
  predicate Blank(s: string) {
    forall i :: 0 <= i < |s| ==> IsWhitespace(s[i])
  }

  /** Drops the leading white space: the result is a suffix of `s`, everything
      dropped is white space, and the result does not start with white space. */
  function TrimStart(s: string): (r: string)
    ensures |r| <= |s| && r == s[|s| - |r|..]
    ensures Blank(s[..|s| - |r|])
    ensures r != [] ==> !IsWhitespace(r[0])
  {
    if s != [] && IsWhitespace(s[0]) then
      var t := s[1..];
      var r := TrimStart(t);
      assert s[..|s| - |r|] == [s[0]] + t[..|t| - |r|];
      r
    else
      s
  }

  /** Drops the trailing white space: the result is a prefix of `s`, everything
      dropped is white space, and the result does not end with white space. */
  function TrimEnd(s: string): (r: string)
    ensures |r| <= |s| && r == s[..|r|]
    ensures Blank(s[|r|..])
    ensures r != [] ==> !IsWhitespace(r[|r| - 1])
  {
    if s != [] && IsWhitespace(s[|s| - 1]) then
      var t := s[..|s| - 1];
      var r := TrimEnd(t);
      assert s[|r|..] == t[|r|..] + [s[|s| - 1]];
      r
    else
      s
  }

  /** `s.trim()`: what is left after dropping white space at both ends. It
      is no longer than `s`, and neither starts nor ends with white space. */
  function Trim(s: string): (r: string)
    ensures |r| <= |s|
    ensures r != [] ==> !IsWhitespace(r[0]) && !IsWhitespace(r[|r| - 1])
  {
    TrimEnd(TrimStart(s))
  }

  /** Trim removes exactly the white space at both ends: the result is the
      slice of `s` between a blank prefix and a blank suffix. */
  lemma TrimIsSlice(s: string)
    ensures exists a ::
      && 0 <= a <= a + |Trim(s)| <= |s| && Trim(s) == s[a..a + |Trim(s)|]
      && Blank(s[..a]) && Blank(s[a + |Trim(s)|..])
  {
    BlankEnds(s, TrimStart(s), Trim(s));
  }

  /** A blank-led suffix `t` of `s`, then a blank-trailed prefix `r` of `t`:
      `r` is a slice of `s` with only white space around it. */
  lemma BlankEnds(s: string, t: string, r: string)
    requires |t| <= |s| && t == s[|s| - |t|..] && Blank(s[..|s| - |t|])
    requires |r| <= |t| && r == t[..|r|] && Blank(t[|r|..])
    ensures exists a ::
      && 0 <= a <= a + |r| <= |s| && r == s[a..a + |r|]
      && Blank(s[..a]) && Blank(s[a + |r|..])
  {
    var a := |s| - |t|;
    SlicesOfSuffix(s, a, t, |r|);
    assert Blank(s[a + |r|..]);
  }

  /** Slicing a suffix `s[a..]` is slicing `s` shifted by `a`. */
  lemma SlicesOfSuffix(s: string, a: nat, t: string, k: nat)
    requires a <= |s| && t == s[a..] && k <= |t|
    ensures t[..k] == s[a..a + k] && t[k..] == s[a + k..]
  {
  }

  /** `s.trim() === ""` holds exactly when `s` is empty or made only of white
      space, so a name like "   " is rejected and any name holding some other
      character is accepted. */
  lemma TrimEmptyIffBlank(s: string)
    ensures Trim(s) == [] <==> Blank(s)
  {
  }
}
