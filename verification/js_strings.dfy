/**
 * `String.prototype.trim` as ECMAScript defines it: strip WhiteSpace and
 * LineTerminator code points (sections 12.2 and 12.3 of ECMA-262) from both ends.
 */
module JsStrings {

  /** WhiteSpace (TAB, VT, FF, ZWNBSP and every Unicode Zs code point) or LineTerminator (LF, CR, LS, PS). */
  predicate IsWhiteSpace(c: char) {
    var n := c as int;
    n == 0x09 || n == 0x0A || n == 0x0B || n == 0x0C || n == 0x0D
    || n == 0x20 || n == 0xA0 || n == 0x1680
    || (0x2000 <= n <= 0x200A)
    || n == 0x2028 || n == 0x2029 || n == 0x202F || n == 0x205F
    || n == 0x3000 || n == 0xFEFF
  }

  predicate AllWhiteSpace(s: string) {
    forall i :: 0 <= i < |s| ==> IsWhiteSpace(s[i])
  }

  /** Neither end is white space: what `trim` produces. */
  predicate IsTrimmed(s: string) {
    s == [] || (!IsWhiteSpace(s[0]) && !IsWhiteSpace(s[|s| - 1]))
  }

  /**
   * `s.trim()`, peeling one white-space character at a time off either end.
   * The result has no white space at either end; it is empty exactly when
   * `s` is all white space, and it is `s` itself when `s` is already trimmed
   * (so trimming twice is trimming once).
   */
  function Trim(s: string): (r: string)
    ensures IsTrimmed(r)
    ensures |r| <= |s|
    ensures r == [] <==> AllWhiteSpace(s)
    ensures IsTrimmed(s) ==> r == s
    decreases |s|
  {
    if |s| > 0 && IsWhiteSpace(s[0]) then
      var r := Trim(s[1..]);
      assert AllWhiteSpace(s) <==> AllWhiteSpace(s[1..]) by {
        assert forall i :: 0 < i < |s| ==> s[i] == s[1..][i - 1];
      }
      r
    else if |s| > 0 && IsWhiteSpace(s[|s| - 1]) then
      var r := Trim(s[..|s| - 1]);
      assert !AllWhiteSpace(s[..|s| - 1]) by {
        assert s[..|s| - 1][0] == s[0];
      }
      r
    else s
  }

  /** The number of white-space characters `s` starts with. */
  function LeadingWhiteSpace(s: string): (k: nat)
    ensures k <= |s|
    decreases |s|
  {
    if |s| > 0 && IsWhiteSpace(s[0]) then 1 + LeadingWhiteSpace(s[1..]) else 0
  }

  /** `r` sits in `s` after `i` white-space characters and is followed only by white space. */
  predicate SliceBetweenWhiteSpace(s: string, i: nat, r: string) {
    && i + |r| <= |s|
    && r == s[i..i + |r|]
    && AllWhiteSpace(s[..i])
    && AllWhiteSpace(s[i + |r|..])
  }

  /**
   * What `trim` removes is white space at the two ends and nothing else: the
   * result is the slice of `s` that starts after its leading white space and
   * is followed only by white space.
   */
  lemma {:induction false} TrimSlice(s: string)
    ensures SliceBetweenWhiteSpace(s, LeadingWhiteSpace(s), Trim(s))
    decreases |s|
  {
    if |s| > 0 && IsWhiteSpace(s[0]) {
      TrimSlice(s[1..]);
      SliceAfterLeading(s, LeadingWhiteSpace(s[1..]), Trim(s));
    } else if |s| > 0 && IsWhiteSpace(s[|s| - 1]) {
      var t := s[..|s| - 1];
      TrimSlice(t);
      assert t[0] == s[0];
      SliceBeforeTrailing(s, Trim(s));
    } else {
      assert s[0..|s|] == s;
    }
  }

  lemma SliceAfterLeading(s: string, j: nat, r: string)
    requires |s| > 0 && IsWhiteSpace(s[0])
    requires SliceBetweenWhiteSpace(s[1..], j, r)
    ensures SliceBetweenWhiteSpace(s, j + 1, r)
  {
    var t := s[1..];
    assert s[j + 1..j + 1 + |r|] == t[j..j + |r|];
    assert s[j + 1 + |r|..] == t[j + |r|..];
    assert s[..j + 1] == [s[0]] + t[..j];
  }

  lemma SliceBeforeTrailing(s: string, r: string)
    requires |s| > 0 && IsWhiteSpace(s[|s| - 1])
    requires SliceBetweenWhiteSpace(s[..|s| - 1], 0, r)
    ensures SliceBetweenWhiteSpace(s, 0, r)
  {
    var t := s[..|s| - 1];
    assert s[0..|r|] == t[0..|r|];
    assert s[|r|..] == t[|r|..] + [s[|s| - 1]];
  }
}
