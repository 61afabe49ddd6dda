/** The blank-title guard of the compose form: `String.prototype.trim` and the
    falsiness test that the add handler applies to its result. */
module Trim {

  /** The characters `String.prototype.trim` strips: the WhiteSpace production
      of ECMAScript (tab, vertical tab, form feed, the byte order mark and every
      character of Unicode category Zs, listed here as of Unicode 15) and the
      LineTerminator production (LF, CR, LINE SEPARATOR, PARAGRAPH SEPARATOR). */
  predicate IsWhitespace(c: char) {
    || c == '\t' || c == '\n' || c == '\U{B}' || c == '\U{C}' || c == '\r'
    || c == ' ' || c == '\U{A0}' || c == '\U{1680}'
    || ('\U{2000}' <= c <= '\U{200A}')
    || c == '\U{2028}' || c == '\U{2029}' || c == '\U{202F}' || c == '\U{205F}'
    || c == '\U{3000}' || c == '\U{FEFF}'
  }

  /** The length of the run of whitespace that `s` starts with. */
  function LeadingWhitespace(s: string): (n: nat)
    ensures n <= |s|
    ensures forall k :: 0 <= k < n ==> IsWhitespace(s[k])
    ensures n < |s| ==> !IsWhitespace(s[n])
  {
    if s != [] && IsWhitespace(s[0]) then
      var n := LeadingWhitespace(s[1..]);
      assert forall k :: 1 <= k < |s| ==> s[k] == s[1..][k - 1];
      1 + n
    else 0
  }

  /** The length of the run of whitespace that `s` ends with. */
  function TrailingWhitespace(s: string): (n: nat)
    ensures n <= |s|
    ensures forall k :: |s| - n <= k < |s| ==> IsWhitespace(s[k])
    ensures n < |s| ==> !IsWhitespace(s[|s| - 1 - n])
  {
    if s != [] && IsWhitespace(s[|s| - 1]) then
      var n := TrailingWhitespace(s[..|s| - 1]);
      assert forall k :: 0 <= k < |s| - 1 ==> s[k] == s[..|s| - 1][k];
      1 + n
    else 0
  }

  /** `s.trim()`: `s` with its leading and trailing whitespace removed and
      nothing else. The result starts right after the leading run, and only
      whitespace follows it; it neither starts nor ends with whitespace. */
  function Trim(s: string): (r: string)
    ensures var a := LeadingWhitespace(s);
            && a + |r| <= |s|
            && (forall i :: 0 <= i < |r| ==> r[i] == s[a + i])
            && (forall k :: a + |r| <= k < |s| ==> IsWhitespace(s[k]))
    ensures r != [] ==> !IsWhitespace(r[0]) && !IsWhitespace(r[|r| - 1])
  {
    var a := LeadingWhitespace(s);
    if a == |s| then ""
    else
      var b := TrailingWhitespace(s);
      assert a < |s| - b;
      s[a..|s| - b]
  }

  /** `trim()` gives the empty string exactly for the strings made only of
      whitespace, the empty string included. */
  lemma TrimEmptyIffAllWhitespace(s: string)
    ensures Trim(s) == [] <==> forall k :: 0 <= k < |s| ==> IsWhitespace(s[k])
  {
    var a := LeadingWhitespace(s);
    if a < |s| {
      assert Trim(s) != [] by {
        assert a < |s| - TrailingWhitespace(s);
      }
    }
  }

  /** The guard `!s.trim()`: the empty string is the only falsy string, so it
      holds exactly when `s` is all whitespace. */
  function IsBlank(s: string): (blank: bool)
    ensures blank <==> forall k :: 0 <= k < |s| ==> IsWhitespace(s[k])
  {
    TrimEmptyIffAllWhitespace(s);
    Trim(s) == ""
  }

  /** Surrounding whitespace does not change the guard's verdict. */
  lemma {:induction false} BlankIgnoresPadding(pre: string, s: string, post: string)
    requires forall k :: 0 <= k < |pre| ==> IsWhitespace(pre[k])
    requires forall k :: 0 <= k < |post| ==> IsWhitespace(post[k])
    ensures IsBlank(pre + s + post) == IsBlank(s)
  {
    var w := pre + s + post;
    if forall k :: 0 <= k < |s| ==> IsWhitespace(s[k]) {
      forall k | 0 <= k < |w| ensures IsWhitespace(w[k]) {
        if k < |pre| {
          assert w[k] == pre[k];
        } else if k < |pre| + |s| {
          assert w[k] == s[k - |pre|];
        } else {
          assert w[k] == post[k - |pre| - |s|];
        }
      }
    } else {
      var k :| 0 <= k < |s| && !IsWhitespace(s[k]);
      assert w[|pre| + k] == s[k];
    }
  }

  /** A title with a single visible character passes the guard. */
  lemma VisibleCharNotBlank(s: string, k: nat)
    requires k < |s| && !IsWhitespace(s[k])
    ensures !IsBlank(s)
  {
  }

  /** Strings the guard rejects: nothing is sent for them. */
  lemma BlankExamples()
    ensures IsBlank("") && IsBlank("   ") && IsBlank(" \t\n")
  {
  }
}
