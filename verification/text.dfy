/** Python's str.strip() with no argument: removes leading and trailing
    whitespace, where whitespace is exactly what str.isspace() accepts. */
module Text {

  /** The characters Python's str.isspace() accepts: the ASCII controls
      TAB..CR and FS..US, SPACE, NEL, NO-BREAK SPACE and the Unicode space
      separators and line/paragraph separators. */
  const SpaceChars: set<char> := {'\U{9}', '\U{A}', '\U{B}', '\U{C}', '\U{D}', '\U{1C}', '\U{1D}', '\U{1E}', '\U{1F}', '\U{20}', '\U{85}', '\U{A0}', '\U{1680}', '\U{2000}', '\U{2001}', '\U{2002}', '\U{2003}', '\U{2004}', '\U{2005}', '\U{2006}', '\U{2007}', '\U{2008}', '\U{2009}', '\U{200A}', '\U{2028}', '\U{2029}', '\U{202F}', '\U{205F}', '\U{3000}'}

  predicate IsSpace(c: char) {
    c in SpaceChars
  }

  /** Neither end of s is whitespace. */
  predicate Trimmed(s: string) {
    s == [] || (!IsSpace(s[0]) && !IsSpace(s[|s| - 1]))
  }

  predicate AllSpace(s: string) {
    forall k :: 0 <= k < |s| ==> IsSpace(s[k])
  }

  /** str.lstrip(): the longest suffix of s that does not start with whitespace. */
  function TrimStart(s: string): (r: string)
    ensures |r| <= |s| && r == s[|s| - |r|..]
    ensures forall k :: 0 <= k < |s| - |r| ==> IsSpace(s[k])
    ensures r == [] || !IsSpace(r[0])
  {
    if s != [] && IsSpace(s[0]) then
      var r := TrimStart(s[1..]);
      assert forall k :: 1 <= k < |s| - |r| ==> s[k] == s[1..][k - 1];
      r
    else s
  }

  /** str.rstrip(): the longest prefix of s that does not end with whitespace. */
  function TrimEnd(s: string): (r: string)
    ensures |r| <= |s| && r == s[..|r|]
    ensures forall k :: |r| <= k < |s| ==> IsSpace(s[k])
    ensures r == [] || !IsSpace(r[|r| - 1])
  {
    if s != [] && IsSpace(s[|s| - 1]) then
      var r := TrimEnd(s[..|s| - 1]);
      assert forall k :: |r| <= k < |s| - 1 ==> s[k] == s[..|s| - 1][k];
      r
    else s
  }

  /** The whitespace margins TrimStart and TrimEnd cut off together: what
      remains is s[a..a + |r|], with whitespace at every index outside it. */
  predicate MarginsAt(s: string, r: string, a: int) {
    && 0 <= a <= |s| - |r|
    && r == s[a..a + |r|]
    && (forall k :: 0 <= k < a ==> IsSpace(s[k]))
    && (forall k :: a + |r| <= k < |s| ==> IsSpace(s[k]))
  }

  /** What str.strip() promises, from the contracts of the two trims: the
      prefix cut off the front and the suffix cut off the back are
      whitespace, and neither end of what remains is. */
  lemma StripFacts(s: string, left: string, r: string)
    requires |left| <= |s| && left == s[|s| - |left|..]
    requires forall k :: 0 <= k < |s| - |left| ==> IsSpace(s[k])
    requires left == [] || !IsSpace(left[0])
    requires |r| <= |left| && r == left[..|r|]
    requires forall k :: |r| <= k < |left| ==> IsSpace(left[k])
    requires r == [] || !IsSpace(r[|r| - 1])
    ensures Trimmed(r)
    ensures |r| <= |s|
    ensures MarginsAt(s, r, |s| - |left|)
    ensures r == [] <==> AllSpace(s)
    ensures Trimmed(s) ==> r == s
  {
  }

  /** str.strip(): the contiguous piece of s left after removing its
      whitespace margins. It is bounded by non-whitespace, empty exactly
      when s is all whitespace, and an already trimmed string is kept. */
  function Strip(s: string): (r: string)
    ensures Trimmed(r)
    ensures |r| <= |s|
    ensures r == [] <==> AllSpace(s)
    ensures Trimmed(s) ==> r == s
    // The start of the piece is named outright (where the leading margin
    // ends) rather than left to an existential, which keeps the proof cheap.
    ensures MarginsAt(s, r, |s| - |TrimStart(s)|)
  {
    var left := TrimStart(s);
    var r := TrimEnd(left);
    StripFacts(s, left, r);
    r
  }
}
