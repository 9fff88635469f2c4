/**
 * The string primitives of JavaScript that the sales pipeline relies on:
 * `String.prototype.trim`, `toLowerCase`, `toUpperCase`, `includes`,
 * `replace` with a string pattern, and the code-point order used by
 * `Array.prototype.sort` without a comparator.
 */
module JsText {

  import opened Wrappers

  /** The WhiteSpace and LineTerminator code points of ECMAScript, which `trim` removes. */
  predicate IsWhiteSpace(c: char) {
    c == '\t' || c == '\n' || c == '\U{000B}' || c == '\U{000C}' || c == '\r' || c == ' ' ||
    c == '\U{00A0}' || c == '\U{1680}' || ('\U{2000}' <= c <= '\U{200A}') ||
    c == '\U{2028}' || c == '\U{2029}' || c == '\U{202F}' || c == '\U{205F}' ||
    c == '\U{3000}' || c == '\U{FEFF}'
  }

  /** An ASCII decimal digit, the only characters `\d` and `parseInt` accept. */
  predicate IsDigit(c: char) {
    '0' <= c <= '9'
  }

  function DigitValue(c: char): (d: nat)
    requires IsDigit(c)
    ensures d < 10
  {
    c as int - '0' as int
  }

  /** Drops leading white space. */
  function TrimStart(s: string): (r: string)
    ensures |r| <= |s| && r == s[|s| - |r|..]
    ensures forall i :: 0 <= i < |s| - |r| ==> IsWhiteSpace(s[i])
    ensures r == [] || !IsWhiteSpace(r[0])
  {
    if s != [] && IsWhiteSpace(s[0]) then TrimStart(s[1..]) else s
  }

  /** Drops trailing white space. */
  function TrimEnd(s: string): (r: string)
    ensures |r| <= |s| && r == s[..|r|]
    ensures forall i :: |r| <= i < |s| ==> IsWhiteSpace(s[i])
    ensures r == [] || !IsWhiteSpace(r[|r| - 1])
  {
    if s != [] && IsWhiteSpace(s[|s| - 1]) then TrimEnd(s[..|s| - 1]) else s
  }

  /**
   * `r` is the segment of `s` that starts at `a`, and everything of `s` outside
   * that segment is white space.
   */
  predicate SegmentWithin(s: string, a: int, r: string) {
    0 <= a <= |s| - |r| && r == s[a..a + |r|] &&
    (forall i :: 0 <= i < a ==> IsWhiteSpace(s[i])) &&
    (forall i :: a + |r| <= i < |s| ==> IsWhiteSpace(s[i]))
  }

  /**
   * `s.trim()`: the segment of `s` left when white space is removed from both
   * ends; it neither starts nor ends with white space.
   */
  function Trim(s: string): (r: string)
    ensures exists a :: SegmentWithin(s, a, r)
    ensures r == [] || (!IsWhiteSpace(r[0]) && !IsWhiteSpace(r[|r| - 1]))
  {
    var t := TrimStart(s);
    var r := TrimEnd(t);
    TrimSegment(s, t, r);
    r
  }

  /** White space dropped before `t` and after `r` leaves `r` as a segment of `s`. */
  lemma TrimSegment(s: string, t: string, r: string)
    requires |t| <= |s| && t == s[|s| - |t|..] && forall i :: 0 <= i < |s| - |t| ==> IsWhiteSpace(s[i])
    requires |r| <= |t| && r == t[..|r|] && forall i :: |r| <= i < |t| ==> IsWhiteSpace(t[i])
    ensures SegmentWithin(s, |s| - |t|, r)
  {
    var a := |s| - |t|;
    assert s[a..a + |r|] == r by {
      forall i | 0 <= i < |r|
        ensures s[a..a + |r|][i] == r[i]
      {
        assert r[i] == t[i] == s[a + i];
      }
    }
    forall i | a + |r| <= i < |s|
      ensures IsWhiteSpace(s[i])
    {
      assert s[i] == t[i - a];
    }
  }

  /** Trimming leaves a string alone that neither starts nor ends with white space. */
  lemma TrimUnpadded(s: string)
    requires s != [] ==> !IsWhiteSpace(s[0]) && !IsWhiteSpace(s[|s| - 1])
    ensures Trim(s) == s
  {
    assert TrimStart(s) == s;
    assert TrimEnd(s) == s;
  }

  /** `TrimStart` drops exactly the white space before the first other character. */
  lemma {:induction false} TrimStartAt(s: string, a: nat)
    requires a <= |s| && (forall i :: 0 <= i < a ==> IsWhiteSpace(s[i]))
    requires a == |s| || !IsWhiteSpace(s[a])
    ensures TrimStart(s) == s[a..]
  {
    if a > 0 {
      TrimStartAt(s[1..], a - 1);
      assert s[1..][a - 1..] == s[a..];
    }
  }

  /** `TrimEnd` drops exactly the white space after the last other character. */
  lemma {:induction false} TrimEndAt(t: string, n: nat)
    requires n <= |t| && (forall i :: n <= i < |t| ==> IsWhiteSpace(t[i]))
    requires n == 0 || !IsWhiteSpace(t[n - 1])
    ensures TrimEnd(t) == t[..n]
    decreases |t| - n
  {
    if n < |t| {
      var init := t[..|t| - 1];
      TrimEndAt(init, n);
      assert init[..n] == t[..n];
    }
  }

  /** The segment `Trim` keeps is the only one without white space at its ends. */
  lemma TrimUnique(s: string, a: int, r: string)
    requires SegmentWithin(s, a, r)
    requires r == [] || (!IsWhiteSpace(r[0]) && !IsWhiteSpace(r[|r| - 1]))
    ensures Trim(s) == r
  {
    if r == [] {
      TrimStartAt(s, |s|);
    } else {
      var t := SegmentSuffix(s, a, r);
      TrimStartAt(s, a);
      TrimEndAt(t, |r|);
    }
  }

  /** The suffix of `s` from a segment's start: the segment, then white space only. */
  lemma SegmentSuffix(s: string, a: int, r: string) returns (t: string)
    requires SegmentWithin(s, a, r) && r != [] && !IsWhiteSpace(r[0]) && !IsWhiteSpace(r[|r| - 1])
    ensures 0 <= a < |s| && t == s[a..] && !IsWhiteSpace(s[a])
    ensures |r| <= |t| && t[..|r|] == r && !IsWhiteSpace(t[|r| - 1])
    ensures forall i :: |r| <= i < |t| ==> IsWhiteSpace(t[i])
  {
    t := s[a..];
    assert s[a] == r[0];
    assert t[|r| - 1] == r[|r| - 1];
    forall i | |r| <= i < |t|
      ensures IsWhiteSpace(t[i])
    {
      assert t[i] == s[a + i];
    }
  }

  /**
   * Lower-case mapping of one character: the ASCII letters and the Latin-1
   * letters that have a one-to-one case partner (U+00C0..U+00DE except U+00D7).
   */
  function LowerChar(c: char): char {
    if 'A' <= c <= 'Z' || ('\U{00C0}' <= c <= '\U{00DE}' && c != '\U{00D7}') then
      (c as int + 32) as char
    else
      c
  }

  /** Upper-case mapping of one character, the inverse of `LowerChar` on its range. */
  function UpperChar(c: char): char {
    if 'a' <= c <= 'z' || ('\U{00E0}' <= c <= '\U{00FE}' && c != '\U{00F7}') then
      (c as int - 32) as char
    else
      c
  }

  function ToLower(s: string): (r: string)
    ensures |r| == |s|
    ensures forall i :: 0 <= i < |s| ==> r[i] == LowerChar(s[i])
  {
    seq(|s|, i requires 0 <= i < |s| => LowerChar(s[i]))
  }

  function ToUpper(s: string): (r: string)
    ensures |r| == |s|
    ensures forall i :: 0 <= i < |s| ==> r[i] == UpperChar(s[i])
  {
    seq(|s|, i requires 0 <= i < |s| => UpperChar(s[i]))
  }

  /** `t` occurs in `s` starting at index `i`. */
  predicate OccursAt(s: string, t: string, i: int) {
    0 <= i <= |s| - |t| && s[i..i + |t|] == t
  }

  /** `s.includes(t)`: `t` occurs in `s` as a contiguous segment. */
  predicate Includes(s: string, t: string) {
    exists i | 0 <= i <= |s| - |t| :: OccursAt(s, t, i)
  }

  /** Index of the first occurrence of `t` in `s` at or after `from`. */
  function IndexOf(s: string, t: string, from: nat): (r: Option<nat>)
    requires from <= |s|
    ensures r.Some? ==> from <= r.value && OccursAt(s, t, r.value)
    ensures r.Some? ==> forall i :: from <= i < r.value ==> !OccursAt(s, t, i)
    ensures r.None? ==> forall i :: from <= i ==> !OccursAt(s, t, i)
    decreases |s| - from
  {
    if |s| - from < |t| then None
    else if OccursAt(s, t, from) then Some(from)
    else if from == |s| then None
    else IndexOf(s, t, from + 1)
  }

  /** `s.replace(t, u)` with a string pattern: only the first occurrence is replaced. */
  function ReplaceFirst(s: string, t: string, u: string): string {
    match IndexOf(s, t, 0)
    case None => s
    case Some(i) => s[..i] + u + s[i + |t|..]
  }

  /** `s.replace(/c/g, '')` for a single character `c`: every occurrence is removed. */
  function RemoveAll(s: string, c: char): (r: string)
    ensures c !in r
    ensures forall d :: d != c ==> (d in r <==> d in s)
  {
    if s == [] then []
    else if s[0] == c then RemoveAll(s[1..], c)
    else [s[0]] + RemoveAll(s[1..], c)
  }

  /** Replacing at the first occurrence of the pattern. */
  lemma ReplaceFirstAt(s: string, t: string, u: string, i: nat)
    requires OccursAt(s, t, i)
    requires forall j :: 0 <= j < i ==> !OccursAt(s, t, j)
    ensures ReplaceFirst(s, t, u) == s[..i] + u + s[i + |t|..]
  {
    var r := IndexOf(s, t, 0);
    assert r == Some(i) by {
      if r.Some? && r.value < i {
        assert !OccursAt(s, t, r.value);
      }
    }
  }

  /** Replacing a pattern that does not occur changes nothing. */
  lemma ReplaceFirstAbsent(s: string, t: string, u: string)
    requires forall j :: 0 <= j ==> !OccursAt(s, t, j)
    ensures ReplaceFirst(s, t, u) == s
  {
  }

  /** Removing a character that does not occur changes nothing. */
  lemma {:induction false} RemoveAllAbsent(s: string, c: char)
    requires c !in s
    ensures RemoveAll(s, c) == s
  {
    if s != [] {
      RemoveAllAbsent(s[1..], c);
      assert s == [s[0]] + s[1..];
    }
  }

  /** Removal distributes over concatenation. */
  lemma {:induction false} RemoveAllAppend(a: string, b: string, c: char)
    ensures RemoveAll(a + b, c) == RemoveAll(a, c) + RemoveAll(b, c)
  {
    if a != [] {
      assert (a + b)[0] == a[0] && (a + b)[1..] == a[1..] + b;
      RemoveAllAppend(a[1..], b, c);
    } else {
      assert a + b == b;
    }
  }

  /**
   * The code-point order of strings: `a` is a proper prefix of `b`, or `a` has
   * the smaller character at the first position where they differ.
   */
  predicate StrLess(a: string, b: string)
    decreases |a|
  {
    |b| > 0 && (|a| == 0 || a[0] < b[0] || (a[0] == b[0] && StrLess(a[1..], b[1..])))
  }

  lemma {:induction false} StrLessIrreflexive(a: string)
    ensures !StrLess(a, a)
    decreases |a|
  {
    if |a| > 0 {
      StrLessIrreflexive(a[1..]);
    }
  }

  lemma {:induction false} StrLessTransitive(a: string, b: string, c: string)
    requires StrLess(a, b) && StrLess(b, c)
    ensures StrLess(a, c)
    decreases |a|
  {
    if |a| > 0 && a[0] == b[0] && b[0] == c[0] {
      StrLessTransitive(a[1..], b[1..], c[1..]);
    }
  }

  lemma {:induction false} StrLessTotal(a: string, b: string)
    ensures a == b || StrLess(a, b) || StrLess(b, a)
    decreases |a|
  {
    if |a| > 0 && |b| > 0 && a[0] == b[0] {
      StrLessTotal(a[1..], b[1..]);
      if a[1..] == b[1..] {
        assert a == [a[0]] + a[1..] && b == [b[0]] + b[1..];
      }
    }
  }

  lemma {:induction false} StrLessAsymmetric(a: string, b: string)
    requires StrLess(a, b)
    ensures !StrLess(b, a)
  {
    if StrLess(b, a) {
      StrLessTransitive(a, b, a);
      StrLessIrreflexive(a);
    }
  }
}
