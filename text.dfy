/**
 * String trimming as JavaScript's `String.prototype.trim` does it: drop the
 * white space and line terminators at both ends, keep everything between.
 */
module Text {

  /** ECMAScript WhiteSpace (TAB, VT, FF, SP, NBSP, ZWNBSP, category Zs) and LineTerminator. */
  predicate IsSpace(c: char)
  {
    || c == '\t' || c == '\U{B}' || c == '\U{C}' || c == ' ' || c == '\U{A0}' || c == '\U{FEFF}'
    || c == '\U{1680}' || ('\U{2000}' <= c <= '\U{200A}') || c == '\U{202F}' || c == '\U{205F}'
    || c == '\U{3000}'
    || c == '\n' || c == '\r' || c == '\U{2028}' || c == '\U{2029}'
  }

  /** The length of the run of white space at the front of s. */
  function LeadingSpaces(s: string): (n: nat)
    ensures n <= |s|
    ensures forall k :: 0 <= k < n ==> IsSpace(s[k])
    ensures n < |s| ==> !IsSpace(s[n])
  {
    if |s| > 0 && IsSpace(s[0]) then 1 + LeadingSpaces(s[1..]) else 0
  }

  /** The length of the run of white space at the back of s. */
  function TrailingSpaces(s: string): (n: nat)
    ensures n <= |s|
    ensures forall k :: |s| - n <= k < |s| ==> IsSpace(s[k])
    ensures n < |s| ==> !IsSpace(s[|s| - 1 - n])
  {
    if |s| > 0 && IsSpace(s[|s| - 1]) then 1 + TrailingSpaces(s[..|s| - 1]) else 0
  }

  /**
   * s without its leading and trailing white space: a contiguous slice of s
   * that neither starts nor ends with white space, everything cut off being
   * white space.
   */
  function Trim(s: string): (r: string)
    ensures LeadingSpaces(s) + |r| <= |s|
    ensures r == s[LeadingSpaces(s)..LeadingSpaces(s) + |r|]
    ensures r == [] || (!IsSpace(r[0]) && !IsSpace(r[|r| - 1]))
    ensures forall k :: 0 <= k < LeadingSpaces(s) ==> IsSpace(s[k])
    ensures forall k :: LeadingSpaces(s) + |r| <= k < |s| ==> IsSpace(s[k])
    ensures r == [] <==> forall k :: 0 <= k < |s| ==> IsSpace(s[k])
  {
    var rest := s[LeadingSpaces(s)..];
    rest[..|rest| - TrailingSpaces(rest)]
  }

  /** Trimming is idempotent: a trimmed name trims to itself. */
  lemma TrimIdempotent(s: string)
    ensures Trim(Trim(s)) == Trim(s)
  {
    var r := Trim(s);
    if r != [] {
      assert LeadingSpaces(r) == 0;
      assert TrailingSpaces(r) == 0;
    }
  }

  /**
   * Trim is characterised by its contract: any non-empty slice s[i..j] that
   * starts and ends with non-space, with only white space outside it, is Trim(s).
   */
  lemma TrimUnique(s: string, i: nat, j: nat)
    requires i < j <= |s|
    requires !IsSpace(s[i]) && !IsSpace(s[j - 1])
    requires forall k :: 0 <= k < i ==> IsSpace(s[k])
    requires forall k :: j <= k < |s| ==> IsSpace(s[k])
    ensures Trim(s) == s[i..j]
  {
    var r := Trim(s);
    var l := LeadingSpaces(s);
    assert l == i;
    assert r != [];
    assert l + |r| == j;
  }

  /** Surrounding white space does not change the trimmed text. */
  lemma TrimPadded(s: string, pre: string, post: string)
    requires forall k :: 0 <= k < |pre| ==> IsSpace(pre[k])
    requires forall k :: 0 <= k < |post| ==> IsSpace(post[k])
    ensures Trim(pre + s + post) == Trim(s)
  {
    if Trim(s) == [] {
      AllSpacePadded(s, pre, post);
    } else {
      NonEmptyPadded(s, pre, post);
    }
  }

  /** Helper: padding an all-space string gives an all-space string. */
  lemma AllSpacePadded(s: string, pre: string, post: string)
    requires forall k :: 0 <= k < |pre| ==> IsSpace(pre[k])
    requires forall k :: 0 <= k < |post| ==> IsSpace(post[k])
    requires Trim(s) == []
    ensures Trim(pre + s + post) == []
  {
    var t := pre + s + post;
    forall k | 0 <= k < |t| ensures IsSpace(t[k]) {
      if k < |pre| { assert t[k] == pre[k]; }
      else if k < |pre| + |s| { assert t[k] == s[k - |pre|]; }
      else { assert t[k] == post[k - |pre| - |s|]; }
    }
  }

  /** Helper: padding moves a non-empty trimmed slice but does not change it. */
  lemma NonEmptyPadded(s: string, pre: string, post: string)
    requires forall k :: 0 <= k < |pre| ==> IsSpace(pre[k])
    requires forall k :: 0 <= k < |post| ==> IsSpace(post[k])
    requires Trim(s) != []
    ensures Trim(pre + s + post) == Trim(s)
  {
    var t := pre + s + post;
    var r := Trim(s);
    var a := LeadingSpaces(s);
    var i, j := |pre| + a, |pre| + a + |r|;
    assert t[i] == s[a] == r[0];
    assert t[j - 1] == s[a + |r| - 1] == r[|r| - 1];
    forall k | 0 <= k < i ensures IsSpace(t[k]) {
      if k < |pre| { assert t[k] == pre[k]; }
      else { assert t[k] == s[k - |pre|]; }
    }
    forall k | j <= k < |t| ensures IsSpace(t[k]) {
      if k < |pre| + |s| { assert t[k] == s[k - |pre|]; }
      else { assert t[k] == post[k - |pre| - |s|]; }
    }
    TrimUnique(t, i, j);
    assert t[i..j] == s[a..a + |r|];
  }
}
