/**
 * The two string operations of JavaScript that the popup relies on:
 * `String.prototype.trim` (used on the template name, the template body and
 * the editor text) and the substring test behind the CSS attribute selector
 * `[attr*="…"]`.
 */
module JsString {

  /** ECMAScript WhiteSpace and LineTerminator code points, which `trim` strips. */
  predicate IsJsWhitespace(c: char) {
    || c == '\t' || c == '\n' || c == '\U{000B}' || c == '\U{000C}' || c == '\r' || c == ' '
    || c == '\U{00A0}' || c == '\U{1680}'
    || ('\U{2000}' <= c <= '\U{200A}')
    || c == '\U{2028}' || c == '\U{2029}' || c == '\U{202F}' || c == '\U{205F}'
    || c == '\U{3000}' || c == '\U{FEFF}'
  }

  predicate AllWhitespace(s: string) {
    forall k :: 0 <= k < |s| ==> IsJsWhitespace(s[k])
  }

  /** The index of the first character at or after `i` that is not white space, or `|s|`. */
  function SkipWhitespace(s: string, i: nat): (r: nat)
    requires i <= |s|
    ensures i <= r <= |s|
    ensures r < |s| ==> !IsJsWhitespace(s[r])
    ensures forall k :: i <= k < r ==> IsJsWhitespace(s[k])
    decreases |s| - i
  {
    if i < |s| && IsJsWhitespace(s[i]) then SkipWhitespace(s, i + 1) else i
  }

  /** The end of `s[..j]` once its trailing white space is dropped. */
  function SkipWhitespaceBack(s: string, j: nat): (r: nat)
    requires j <= |s|
    ensures r <= j
    ensures 0 < r ==> !IsJsWhitespace(s[r - 1])
    ensures forall k :: r <= k < j ==> IsJsWhitespace(s[k])
  {
    if 0 < j && IsJsWhitespace(s[j - 1]) then SkipWhitespaceBack(s, j - 1) else j
  }

  /** Drops the leading white space: the result is the longest suffix that does not start with it. */
  function TrimStart(s: string): (r: string)
    ensures |r| <= |s| && r == s[|s| - |r|..]
    ensures r != [] ==> !IsJsWhitespace(r[0])
    ensures forall k :: 0 <= k < |s| - |r| ==> IsJsWhitespace(s[k])
  {
    s[SkipWhitespace(s, 0)..]
  }

  /** Drops the trailing white space: the result is the longest prefix that does not end with it. */
  function TrimEnd(s: string): (r: string)
    ensures |r| <= |s| && r == s[..|r|]
    ensures r != [] ==> !IsJsWhitespace(r[|r| - 1])
    ensures forall k :: |r| <= k < |s| ==> IsJsWhitespace(s[k])
  {
    s[..SkipWhitespaceBack(s, |s|)]
  }

  /**
   * `s.trim()`: `s` with its leading and trailing white space dropped. A
   * trimmed string is empty (falsy) exactly when `s` is all white space.
   */
  function Trim(s: string): (r: string)
    ensures r == [] <==> AllWhitespace(s)
    ensures r != [] ==> !IsJsWhitespace(r[0]) && !IsJsWhitespace(r[|r| - 1])
    ensures |r| <= |s|
    ensures exists a :: 0 <= a && a + |r| <= |s| && r == s[a..a + |r|] && AllWhitespace(s[..a]) && AllWhitespace(s[a + |r|..])
  {
    TrimSplit(s, TrimStart(s), TrimEnd(TrimStart(s)));
    TrimEnd(TrimStart(s))
  }

  /**
   * A suffix `front` of `s` that drops only white space, cut to a prefix `r`
   * that drops only white space, is the slice of `s` at `|s| - |front|` with
   * only white space around it; when `front` and `r` are the longest such,
   * `r` has no white space at either end and is empty only for an all-white-space `s`.
   */
  lemma TrimSplit(s: string, front: string, r: string)
    requires |front| <= |s| && front == s[|s| - |front|..]
    requires forall k :: 0 <= k < |s| - |front| ==> IsJsWhitespace(s[k])
    requires front != [] ==> !IsJsWhitespace(front[0])
    requires |r| <= |front| && r == front[..|r|]
    requires forall k :: |r| <= k < |front| ==> IsJsWhitespace(front[k])
    requires r != [] ==> !IsJsWhitespace(r[|r| - 1])
    ensures r == [] <==> AllWhitespace(s)
    ensures r != [] ==> !IsJsWhitespace(r[0]) && !IsJsWhitespace(r[|r| - 1])
    ensures |r| <= |s|
    ensures exists a :: 0 <= a && a + |r| <= |s| && r == s[a..a + |r|] && AllWhitespace(s[..a]) && AllWhitespace(s[a + |r|..])
  {
    var a := |s| - |front|;
    PrefixOfSuffix(s, a, front, r);
    WhitespaceAfter(s, a, front, |r|);
    WhitespaceAround(s, a, |r|);
    if r != [] {
      assert r[0] == front[0];
      assert !AllWhitespace(s) by { assert s[a] == r[0]; }
    }
  }

  /** White space at the end of the suffix of `s` at `a` is white space at the end of `s`. */
  lemma WhitespaceAfter(s: string, a: nat, front: string, n: nat)
    requires a <= |s| && front == s[a..] && n <= |front|
    requires forall k :: n <= k < |front| ==> IsJsWhitespace(front[k])
    ensures forall k :: a + n <= k < |s| ==> IsJsWhitespace(s[k])
  {
    forall k | a + n <= k < |s| ensures IsJsWhitespace(s[k]) {
      assert s[k] == front[k - a];
    }
  }

  /** A prefix of the suffix of `s` at `a` is the slice of `s` that starts at `a`. */
  lemma PrefixOfSuffix(s: string, a: nat, front: string, r: string)
    requires a <= |s| && front == s[a..]
    requires |r| <= |front| && r == front[..|r|]
    ensures r == s[a..a + |r|]
  {
    forall i | 0 <= i < |r| ensures r[i] == s[a + i] {
      assert r[i] == front[i];
    }
  }

  /** White space before index `a` and from `a + n` on is white space in the two slices around `s[a..a + n]`. */
  lemma WhitespaceAround(s: string, a: nat, n: nat)
    requires a + n <= |s|
    requires forall k :: 0 <= k < a ==> IsJsWhitespace(s[k])
    requires forall k :: a + n <= k < |s| ==> IsJsWhitespace(s[k])
    ensures AllWhitespace(s[..a]) && AllWhitespace(s[a + n..])
    ensures n == 0 ==> AllWhitespace(s)
  {
    var tail := s[a + n..];
    forall k | 0 <= k < |tail| ensures IsJsWhitespace(tail[k]) {
      assert tail[k] == s[a + n + k];
    }
  }

  /** A string without surrounding white space comes back from `trim` unchanged. */
  lemma TrimKeepsTrimmed(s: string)
    requires s != [] ==> !IsJsWhitespace(s[0]) && !IsJsWhitespace(s[|s| - 1])
    ensures Trim(s) == s
  {
    assert TrimStart(s) == s;
  }

  /** Trimming twice is trimming once. */
  lemma TrimIdempotent(s: string)
    ensures Trim(Trim(s)) == Trim(s)
  {
    TrimKeepsTrimmed(Trim(s));
  }

  /** `sub` occurs in `s` as a contiguous substring. */
  predicate Contains(s: string, sub: string) {
    sub <= s || (s != [] && Contains(s[1..], sub))
  }

  /** `sub` occurs in `s` starting at index `i`. */
  predicate OccursAt(s: string, sub: string, i: int) {
    0 <= i && i + |sub| <= |s| && s[i..i + |sub|] == sub
  }

  /** The recursive test finds `sub` exactly when it occurs at some index of `s`. */
  lemma {:induction false} ContainsIffOccurs(s: string, sub: string)
    ensures Contains(s, sub) <==> exists i :: OccursAt(s, sub, i)
    decreases |s|
  {
    assert OccursAt(s, sub, 0) ==> sub <= s by {
      if OccursAt(s, sub, 0) {
        assert s[..|sub|] == s[0..|sub|];
      }
    }
    if sub <= s {
      assert s[0..|sub|] == sub;
      assert OccursAt(s, sub, 0);
    } else if s != [] {
      ContainsIffOccurs(s[1..], sub);
      if exists i :: OccursAt(s[1..], sub, i) {
        var i :| OccursAt(s[1..], sub, i);
        assert s[i + 1..i + 1 + |sub|] == s[1..][i..i + |sub|];
        assert OccursAt(s, sub, i + 1);
      }
      forall i | OccursAt(s, sub, i) && i > 0 ensures OccursAt(s[1..], sub, i - 1) {
        assert s[1..][i - 1..i - 1 + |sub|] == s[i..i + |sub|];
      }
    }
  }
}
