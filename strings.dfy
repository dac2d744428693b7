/** The Python string operations the loader applies to cell text:
    `str.strip()`, `str.replace(old, new)` for one character, and `in` on strings.
    Strings are sequences of code points, as in Python. */
module Strings {

  /** Python's `str.isspace()`: the characters `str.strip()` removes when called
      without arguments (ASCII white space, the information separators
      U+001C to U+001F, and the Unicode space separators). */
  predicate IsSpace(c: char) {
    || c == ' ' || c == '\t' || c == '\n' || c == '\r'
    || c == '\U{000B}' || c == '\U{000C}'
    || ('\U{001C}' <= c <= '\U{001F}')
    || c == '\U{0085}' || c == '\U{00A0}' || c == '\U{1680}'
    || ('\U{2000}' <= c <= '\U{200A}')
    || c == '\U{2028}' || c == '\U{2029}' || c == '\U{202F}' || c == '\U{205F}'
    || c == '\U{3000}'
  }

  function TrimStart(s: string): (r: string)
    ensures |r| <= |s| && r == s[|s| - |r|..]
    ensures forall i :: 0 <= i < |s| - |r| ==> IsSpace(s[i])
    ensures r == [] || !IsSpace(r[0])
  {
    if s != [] && IsSpace(s[0]) then
      var r := TrimStart(s[1..]);
      assert s[1..][|s| - 1 - |r|..] == s[|s| - |r|..];
      assert forall i :: 1 <= i < |s| - |r| ==> s[i] == s[1..][i - 1];
      r
    else s
  }

  function TrimEnd(s: string): (r: string)
    ensures |r| <= |s| && r == s[..|r|]
    ensures forall i :: |r| <= i < |s| ==> IsSpace(s[i])
    ensures r == [] || !IsSpace(r[|r| - 1])
  {
    if s != [] && IsSpace(s[|s| - 1]) then TrimEnd(s[..|s| - 1]) else s
  }

  /** `s` is `r`, found at offset `i`, with only white space before and after it. */
  predicate PaddedAt(s: string, r: string, i: int) {
    && 0 <= i <= |s| - |r|
    && r == s[i..i + |r|]
    && (forall k :: 0 <= k < i ==> IsSpace(s[k]))
    && (forall k :: i + |r| <= k < |s| ==> IsSpace(s[k]))
  }

  /** `r` is `s` without the white space around it: `s` is `r` padded with white
      space, and neither end of `r` is white space. */
  predicate StrippedFrom(s: string, r: string) {
    && (exists i :: 0 <= i <= |s| && PaddedAt(s, r, i))
    && (r == [] || (!IsSpace(r[0]) && !IsSpace(r[|r| - 1])))
  }

  /** Python's `str.strip()`: `s` without the white space around it, so that what is
      left neither starts nor ends with white space. */
  function Strip(s: string): (r: string)
    ensures |r| <= |s|
    ensures exists i :: PaddedAt(s, r, i)
    ensures r == [] || (!IsSpace(r[0]) && !IsSpace(r[|r| - 1]))
  {
    TrimmedPadded(s);
    TrimEnd(TrimStart(s))
  }

  /** Trimming both ends leaves the text found after the leading white space. */
  lemma TrimmedPadded(s: string)
    ensures PaddedAt(s, TrimEnd(TrimStart(s)), |s| - |TrimStart(s)|)
  {
    var t := TrimStart(s);
    PaddedWithin(s, t, TrimEnd(t), |s| - |t|);
  }

  /** A prefix `r` of the suffix `t == s[i..]`, with white space before `t` and
      after `r`, is `s` padded at `i`. */
  lemma PaddedWithin(s: string, t: string, r: string, i: int)
    requires 0 <= i <= |s| && t == s[i..]
    requires |r| <= |t| && r == t[..|r|]
    requires forall k :: 0 <= k < i ==> IsSpace(s[k])
    requires forall k :: |r| <= k < |t| ==> IsSpace(t[k])
    ensures PaddedAt(s, r, i)
  {
    assert r == s[i..i + |r|];
    forall k | i + |r| <= k < |s| ensures IsSpace(s[k]) {
      assert s[k] == t[k - i];
    }
  }

  /** Stripping removes characters and never adds one. */
  lemma StripKeepsOut(s: string, c: char)
    requires c !in s
    ensures c !in Strip(s)
  {
    var t := TrimStart(s);
    assert t == s[|s| - |t|..];
    assert TrimEnd(t) == t[..|TrimEnd(t)|];
  }

  /** Stripping twice is stripping once. */
  lemma StripIdempotent(s: string)
    ensures Strip(Strip(s)) == Strip(s)
  {
    var r := Strip(s);
    if r != [] {
      assert TrimStart(r) == r;
      assert TrimEnd(r) == r;
    }
  }

  /** Python's `s.replace(from, to)` where `from` and `to` are single characters. */
  function ReplaceChar(s: string, from: char, to: char): (r: string)
    ensures |r| == |s|
    ensures forall i :: 0 <= i < |s| ==> r[i] == if s[i] == from then to else s[i]
  {
    if s == [] then []
    else [if s[0] == from then to else s[0]] + ReplaceChar(s[1..], from, to)
  }

  /** Replacing a character that does not occur changes nothing. */
  lemma ReplaceAbsent(s: string, from: char, to: char)
    requires from !in s
    ensures ReplaceChar(s, from, to) == s
  {
    assert forall i :: 0 <= i < |s| ==> ReplaceChar(s, from, to)[i] == s[i];
  }

  predicate StartsWith(s: string, k: string) {
    |k| <= |s| && s[..|k|] == k
  }

  /** Python's `k in s` on strings: `k` occurs in `s` as a contiguous run. */
  predicate Contains(s: string, k: string)
    decreases |s|
  {
    StartsWith(s, k) || (s != [] && Contains(s[1..], k))
  }

  /** `k` occurs in `s` starting at position `i`. */
  predicate OccursAt(s: string, k: string, i: int) {
    0 <= i <= |s| - |k| && s[i..i + |k|] == k
  }

  /** An occurrence at position `i` makes `Contains` hold. */
  lemma {:induction false} OccursContains(s: string, k: string, i: int)
    requires OccursAt(s, k, i)
    ensures Contains(s, k)
    decreases i
  {
    if i == 0 {
      assert s[..|k|] == s[0..|k|];
    } else {
      assert s[1..][i - 1..i - 1 + |k|] == s[i..i + |k|];
      OccursContains(s[1..], k, i - 1);
    }
  }

  /** `Contains` holds only where `k` occurs. */
  lemma {:induction false} ContainsOccurs(s: string, k: string)
    requires Contains(s, k)
    ensures exists i :: OccursAt(s, k, i)
    decreases |s|
  {
    if StartsWith(s, k) {
      assert s[0..|k|] == s[..|k|];
      assert OccursAt(s, k, 0);
    } else {
      ContainsOccurs(s[1..], k);
      var i :| OccursAt(s[1..], k, i);
      assert s[1..][i..i + |k|] == s[i + 1..i + 1 + |k|];
      assert OccursAt(s, k, i + 1);
    }
  }

  /** `Contains` finds exactly the positions where `k` occurs. */
  lemma ContainsAt(s: string, k: string)
    ensures Contains(s, k) <==> exists i :: OccursAt(s, k, i)
  {
    if Contains(s, k) {
      ContainsOccurs(s, k);
    }
    if exists i :: OccursAt(s, k, i) {
      var i :| OccursAt(s, k, i);
      OccursContains(s, k, i);
    }
  }

  /** Python's `any(k in s for k in ks)`. */
  predicate ContainsAny(s: string, ks: seq<string>) {
    exists j :: 0 <= j < |ks| && Contains(s, ks[j])
  }

  /** Lexicographic comparison by code point, Python's `<=` on strings. */
  predicate LexLe(a: string, b: string) {
    a == [] || (b != [] && (a[0] < b[0] || (a[0] == b[0] && LexLe(a[1..], b[1..]))))
  }

  lemma {:induction false} LexLeTotal(a: string, b: string)
    ensures LexLe(a, b) || LexLe(b, a)
  {
    if a != [] && b != [] && a[0] == b[0] {
      LexLeTotal(a[1..], b[1..]);
    }
  }

  lemma {:induction false} LexLeAntisymmetric(a: string, b: string)
    requires LexLe(a, b) && LexLe(b, a)
    ensures a == b
  {
    if a != [] && b != [] {
      LexLeAntisymmetric(a[1..], b[1..]);
      assert a == [a[0]] + a[1..] && b == [b[0]] + b[1..];
    }
  }

  lemma {:induction false} LexLeTransitive(a: string, b: string, c: string)
    requires LexLe(a, b) && LexLe(b, c)
    ensures LexLe(a, c)
  {
    if a != [] && b != [] && c != [] && a[0] == b[0] == c[0] {
      LexLeTransitive(a[1..], b[1..], c[1..]);
    }
  }
}
