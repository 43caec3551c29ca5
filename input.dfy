/** The text field's blank test: `!newTask.trim()`. */
module TaskInput {

  /** The characters `String.prototype.trim` strips: ECMAScript's WhiteSpace
      (tab, vertical tab, form feed, no-break space, byte order mark and the
      Unicode space separators) and LineTerminator (line feed, carriage return,
      line and paragraph separators). */
  predicate IsWhitespace(c: char)
  {
    || c == '\t' || c == '\U{B}' || c == '\U{C}' || c == ' '
    || c == '\U{A0}' || c == '\U{1680}' || ('\U{2000}' <= c <= '\U{200A}')
    || c == '\U{202F}' || c == '\U{205F}' || c == '\U{3000}' || c == '\U{FEFF}'
    || c == '\n' || c == '\r' || c == '\U{2028}' || c == '\U{2029}'
  }

  /** `s` without its leading whitespace. */
  function TrimStart(s: string): (r: string)
    ensures |r| <= |s| && r == s[|s| - |r|..]
    ensures forall k :: 0 <= k < |s| - |r| ==> IsWhitespace(s[k])
    ensures r == [] || !IsWhitespace(r[0])
  {
    if s != [] && IsWhitespace(s[0]) then TrimStart(s[1..]) else s
  }

  /** `s` without its trailing whitespace. */
  function TrimEnd(s: string): (r: string)
    ensures |r| <= |s| && r == s[..|r|]
    ensures forall k :: |r| <= k < |s| ==> IsWhitespace(s[k])
    ensures r == [] || !IsWhitespace(r[|r| - 1])
  {
    if s != [] && IsWhitespace(s[|s| - 1]) then TrimEnd(s[..|s| - 1]) else s
  }

  /** `String.prototype.trim`: the slice of `s` left after dropping the
      leading and trailing whitespace. */
  function Trim(s: string): (r: string)
    ensures exists i, j :: TrimmedAt(s, r, i, j)
  {
    TrimIsInfix(s);
    TrimEnd(TrimStart(s))
  }

  /** The add handler's guard `!newTask.trim()`: the trimmed text is the
      empty (falsy) string, which happens exactly when every character is
      whitespace (so the empty text is blank). */
  function IsBlank(s: string): (b: bool)
    ensures b <==> forall k :: 0 <= k < |s| ==> IsWhitespace(s[k])
  {
    Trim(s) == ""
  }

  /** Trimming keeps a contiguous run of `s` that starts and ends with a
      non-whitespace character, and drops only whitespace around it. */
  lemma TrimIsInfix(s: string)
    ensures exists i, j :: TrimmedAt(s, TrimEnd(TrimStart(s)), i, j)
  {
    var t := TrimStart(s);
    var u := TrimEnd(t);
    var i := |s| - |t|;
    StripBothEnds(s, t, u, i);
    assert TrimmedAt(s, u, i, i + |u|);
  }

  /** Stripping whitespace from the front of `s` (giving `t`) and then from
      the back of `t` (giving `u`) leaves the slice `s[i..i + |u|]`. */
  lemma StripBothEnds(s: string, t: string, u: string, i: nat)
    requires i <= |s| && t == s[i..]
    requires |u| <= |t| && u == t[..|u|]
    requires forall k :: 0 <= k < i ==> IsWhitespace(s[k])
    requires forall k :: |u| <= k < |t| ==> IsWhitespace(t[k])
    requires t == [] || !IsWhitespace(t[0])
    requires u == [] || !IsWhitespace(u[|u| - 1])
    ensures TrimmedAt(s, u, i, i + |u|)
  {
    var j := i + |u|;
    assert u == s[i..j];
    forall k | j <= k < |s|
      ensures IsWhitespace(s[k])
    {
      assert s[k] == t[k - i];
    }
    if i < j {
      assert s[i] == u[0] == t[0];
      assert s[j - 1] == u[|u| - 1];
    }
  }

  /** `r` is `s[i..j]`, with only whitespace outside it and none at its ends. */
  ghost predicate TrimmedAt(s: string, r: string, i: int, j: int)
  {
    && 0 <= i <= j <= |s|
    && r == s[i..j]
    && (forall k :: 0 <= k < i ==> IsWhitespace(s[k]))
    && (forall k :: j <= k < |s| ==> IsWhitespace(s[k]))
    && (i < j ==> !IsWhitespace(s[i]) && !IsWhitespace(s[j - 1]))
  }
}
