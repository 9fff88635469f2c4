/**
 * `parseInt(s, 10)` and `parseFloat(s)`, which read the longest numeric prefix
 * of a string after leading white space and yield NaN (`None`) when there is none.
 */
module JsNumber {

  import opened Wrappers
  import opened JsText

  predicate AllDigits(s: string) {
    forall i :: 0 <= i < |s| ==> IsDigit(s[i])
  }

  /** The longest prefix of `s` made of decimal digits. */
  function LeadingDigits(s: string): (d: string)
    ensures |d| <= |s| && d == s[..|d|] && AllDigits(d)
    ensures |d| == |s| || !IsDigit(s[|d|])
  {
    if s != [] && IsDigit(s[0]) then [s[0]] + LeadingDigits(s[1..]) else []
  }

  /** The value of a string of decimal digits, most significant first. */
  function DigitsValue(d: string): nat
    requires AllDigits(d)
  {
    if d == [] then 0 else DigitsValue(d[..|d| - 1]) * 10 + DigitValue(d[|d| - 1])
  }

  /** The value of one or two digits. */
  lemma DigitsValueShort(g: string)
    requires 1 <= |g| <= 2 && AllDigits(g)
    ensures |g| == 1 ==> DigitsValue(g) == DigitValue(g[0])
    ensures |g| == 2 ==> DigitsValue(g) == 10 * DigitValue(g[0]) + DigitValue(g[1])
  {
    if |g| == 2 {
      assert g[..1] == [g[0]];
      assert g[..1][..0] == [];
    } else {
      assert g[..0] == [];
    }
  }

  function Pow10(n: nat): (p: nat)
    ensures p >= 1
  {
    if n == 0 then 1 else 10 * Pow10(n - 1)
  }

  /** Both parsers accept one optional sign after the leading white space. */
  predicate HasSign(t: string) {
    t != [] && (t[0] == '-' || t[0] == '+')
  }

  predicate IsNegative(t: string) {
    t != [] && t[0] == '-'
  }

  function Unsigned(t: string): string {
    if HasSign(t) then t[1..] else t
  }

  /** `parseInt(s, 10)`; `None` stands for NaN. */
  function ParseInt(s: string): (r: Option<int>)
    ensures r.Some? && r.value < 0 ==> IsNegative(TrimStart(s))
  {
    var t := TrimStart(s);
    var digits := LeadingDigits(Unsigned(t));
    if digits == [] then None
    else if IsNegative(t) then Some(-(DigitsValue(digits) as int))
    else Some(DigitsValue(digits))
  }

  /** The value of the decimal numeral `whole.fraction`. */
  function DecimalValue(whole: string, fraction: string): real
    requires AllDigits(whole) && AllDigits(fraction)
  {
    DigitsValue(whole) as real + DigitsValue(fraction) as real / Pow10(|fraction|) as real
  }

  /**
   * `parseFloat(s)` for decimal literals without exponent: digits, optionally a
   * point and more digits, with at least one digit in all; `None` stands for NaN.
   */
  function ParseFloat(s: string): (r: Option<real>)
    ensures r.Some? && r.value < 0.0 ==> IsNegative(TrimStart(s))
  {
    ParseFloatTrimmed(TrimStart(s))
  }

  /** `parseFloat` on text whose leading white space is already gone. */
  function ParseFloatTrimmed(t: string): (r: Option<real>)
    ensures r.Some? && r.value < 0.0 ==> IsNegative(t)
  {
    var rest := Unsigned(t);
    var whole := LeadingDigits(rest);
    var after := rest[|whole|..];
    var fraction := if after != [] && after[0] == '.' then LeadingDigits(after[1..]) else [];
    var magnitude := DecimalValue(whole, fraction);
    if whole == [] && fraction == [] then None
    else if IsNegative(t) then Some(-magnitude)
    else Some(magnitude)
  }

  lemma {:induction false} LeadingDigitsOfDigits(d: string, rest: string)
    requires AllDigits(d)
    requires rest == [] || !IsDigit(rest[0])
    ensures LeadingDigits(d + rest) == d
    decreases |d|
  {
    if d != [] {
      assert (d + rest)[1..] == d[1..] + rest;
      LeadingDigitsOfDigits(d[1..], rest);
    }
  }

  lemma {:induction false} LeadingDigitsWithoutDigits(s: string)
    requires forall i :: 0 <= i < |s| ==> !IsDigit(s[i])
    ensures LeadingDigits(s) == []
  {
  }

  /** `parseInt` reads a leading run of digits and stops at the first non-digit. */
  lemma ParseIntOfDigits(d: string, rest: string, s: string)
    requires d != [] && AllDigits(d)
    requires rest == [] || !IsDigit(rest[0])
    requires s == d + rest
    ensures ParseInt(s) == Some(DigitsValue(d))
  {
    assert s[0] == d[0] && IsDigit(s[0]);
    assert TrimStart(s) == s;
    assert !HasSign(s);
    LeadingDigitsOfDigits(d, rest);
    var v := DigitsValue(d);
    assert ParseInt(s) == Some(v);
  }

  /** A string made only of digits parses to its value. */
  lemma ParseIntOfAllDigits(g: string)
    requires g != [] && AllDigits(g)
    ensures ParseInt(g) == Some(DigitsValue(g))
  {
    ParseIntOfDigits(g, [], g);
  }

  /** `parseFloat` of `w.f` with digit strings `w` (not empty) and `f`: the whole part plus the fraction. */
  lemma ParseFloatOfDecimal(w: string, f: string, s: string)
    requires w != [] && AllDigits(w) && AllDigits(f)
    requires s == w + ['.'] + f
    ensures ParseFloat(s) == Some(DecimalValue(w, f))
  {
    assert TrimStart(s) == s && !HasSign(s) by {
      assert s[0] == w[0];
    }
    assert LeadingDigits(s) == w by {
      var after := ['.'] + f;
      assert s == w + after;
      LeadingDigitsOfDigits(w, after);
    }
    assert |w| < |s| && s[|w|] == '.' && LeadingDigits(s[|w| + 1..]) == f by {
      assert s[|w| + 1..] == f + [];
      LeadingDigitsOfDigits(f, []);
    }
    ParseFloatParts(s, w, f);
  }

  /** `parseFloat` looks only at the text after the leading white space. */
  lemma ParseFloatSameStart(a: string, b: string)
    requires TrimStart(a) == TrimStart(b)
    ensures ParseFloat(a) == ParseFloat(b)
  {
  }

  /** `parseFloat` of digits alone is their value. */
  lemma ParseFloatOfDigits(w: string)
    requires w != [] && AllDigits(w)
    ensures ParseFloat(w) == Some(DigitsValue(w) as real)
  {
    assert !IsWhiteSpace(w[0]) && !HasSign(w) by {
      assert IsDigit(w[0]);
    }
    TrimStartAt(w, 0);
    assert LeadingDigits(w) == w by {
      assert w + [] == w;
      LeadingDigitsOfDigits(w, []);
    }
    ParseFloatWhole(w);
    DecimalValueWhole(w);
  }

  lemma ParseFloatWhole(s: string)
    requires TrimStart(s) == s && !HasSign(s)
    requires s != [] && LeadingDigits(s) == s
    ensures ParseFloat(s) == Some(DecimalValue(s, []))
  {
    assert Unsigned(TrimStart(s)) == s && !IsNegative(TrimStart(s));
  }

  lemma DecimalValueWhole(w: string)
    requires AllDigits(w)
    ensures DecimalValue(w, []) == DigitsValue(w) as real
  {
  }

  lemma ParseFloatParts(s: string, w: string, f: string)
    requires TrimStart(s) == s && !HasSign(s)
    requires LeadingDigits(s) == w && w != []
    requires |w| < |s| && s[|w|] == '.' && LeadingDigits(s[|w| + 1..]) == f
    ensures ParseFloat(s) == Some(DecimalValue(w, f))
  {
    assert Unsigned(TrimStart(s)) == s;
    var after := s[|w|..];
    assert after != [] && after[0] == '.';
    assert after[1..] == s[|w| + 1..];
    assert !IsNegative(TrimStart(s));
  }

  /** A leading minus sign is accepted, so `parseInt` can yield a negative number. */
  lemma ParseIntOfNegative(d: string, rest: string, n: string)
    requires d != [] && AllDigits(d)
    requires rest == [] || !IsDigit(rest[0])
    requires n == ['-'] + d + rest
    ensures ParseInt(n) == Some(-(DigitsValue(d) as int))
  {
    var s := d + rest;
    assert n[0] == '-' && n[1..] == s;
    assert TrimStart(n) == n;
    assert IsNegative(n) && Unsigned(n) == s;
    LeadingDigitsOfDigits(d, rest);
    var v := DigitsValue(d);
    assert ParseInt(n) == Some(-(v as int));
  }

  /** `parseInt` of a text without digits is NaN. */
  lemma ParseIntWithoutDigits(s: string)
    requires forall i :: 0 <= i < |s| ==> !IsDigit(s[i])
    ensures ParseInt(s) == None
  {
    LeadingDigitsWithoutDigits(Unsigned(TrimStart(s)));
  }

  /** Text with no digit at all is NaN for both parsers. */
  lemma ParseWithoutDigits(s: string)
    requires forall i :: 0 <= i < |s| ==> !IsDigit(s[i])
    ensures ParseInt(s) == None && ParseFloat(s) == None
  {
    var rest := Unsigned(TrimStart(s));
    LeadingDigitsWithoutDigits(rest);
    var after := rest[|LeadingDigits(rest)|..];
    if after != [] && after[0] == '.' {
      LeadingDigitsWithoutDigits(after[1..]);
    }
  }
}
