/**
 * Month extraction (`extrairMes`): a name table, then the first date-shaped
 * match of `D[/-]M[/-]YYYY` or `YYYY[/-]M[/-]D`, then the fallback `Jan`.
 */
module Months {

  import opened Wrappers
  import opened JsText
  import opened JsNumber
  import opened Assoc

  /** `MESES_ORDEM`: the twelve month codes in calendar order. */
  const MonthCodes: seq<string> := ["Jan", "Fev", "Mar", "Abr", "Mai", "Jun", "Jul", "Ago", "Set", "Out", "Nov", "Dez"]

  /** No month code is listed twice. */
  lemma MonthCodesDistinct()
    ensures forall i, j :: 0 <= i < j < |MonthCodes| ==> MonthCodes[i] != MonthCodes[j]
  {
  }

  /** The fallback code. */
  const Fallback: string := "Jan"

  /** Membership in `MESES_VALIDOS`. */
  predicate IsMonthCode(m: string) {
    m in MonthCodes
  }

  /** The object literal `meses`: Portuguese and English month names and abbreviations, lower case, with their codes. */
  const MonthNames: Entries<string, string> := [
    ("janeiro", "Jan"), ("january", "Jan"), ("jan", "Jan"),
    ("fevereiro", "Fev"), ("february", "Fev"), ("fev", "Fev"),
    ("março", "Mar"), ("march", "Mar"), ("mar", "Mar"),
    ("abril", "Abr"), ("april", "Abr"), ("abr", "Abr"),
    ("maio", "Mai"), ("may", "Mai"), ("mai", "Mai"),
    ("junho", "Jun"), ("june", "Jun"), ("jun", "Jun"),
    ("julho", "Jul"), ("july", "Jul"), ("jul", "Jul"),
    ("agosto", "Ago"), ("august", "Ago"), ("ago", "Ago"),
    ("setembro", "Set"), ("september", "Set"), ("set", "Set"),
    ("outubro", "Out"), ("october", "Out"), ("out", "Out"),
    ("novembro", "Nov"), ("november", "Nov"), ("nov", "Nov"),
    ("dezembro", "Dez"), ("december", "Dez"), ("dez", "Dez")
  ]

  /** Every value in the name table is a month code. */
  lemma MonthNamesAreCodes()
    ensures forall i :: 0 <= i < |MonthNames| ==> IsMonthCode(MonthNames[i].1)
  {
  }

  /** `MESES_ORDEM[n - 1] ?? 'Jan'`: the n-th month, or the fallback outside 1..12. */
  function MonthNumbered(n: int): (m: string)
    ensures IsMonthCode(m)
    ensures 1 <= n <= 12 ==> m == MonthCodes[n - 1]
    ensures !(1 <= n <= 12) ==> m == Fallback
  {
    if 1 <= n <= 12 then MonthCodes[n - 1] else Fallback
  }

  predicate IsSeparator(c: char) {
    c == '/' || c == '-'
  }

  /** `n` digits start at index `i` of `s`. */
  predicate DigitsAt(s: string, i: int, n: nat) {
    0 <= i && i + n <= |s| && AllDigits(s[i..i + n])
  }

  predicate SeparatorAt(s: string, i: int) {
    0 <= i < |s| && IsSeparator(s[i])
  }

  /** `(\d{a})[/-](\d{b})[/-](\d{4})` matches at index `i`. */
  predicate DayFirstShape(s: string, i: int, a: nat, b: nat) {
    DigitsAt(s, i, a) && SeparatorAt(s, i + a) && DigitsAt(s, i + a + 1, b) &&
    SeparatorAt(s, i + a + 1 + b) && DigitsAt(s, i + a + b + 2, 4)
  }

  /**
   * The first alternative of the date pattern tried at index `i`, with the
   * greedy-first backtracking order of `\d{1,2}`; the result is group 2, the month.
   */
  function DayFirstAt(s: string, i: nat): (g: Option<string>)
    ensures g.Some? ==> 1 <= |g.value| <= 2 && AllDigits(g.value)
  {
    if DayFirstShape(s, i, 2, 2) then Some(s[i + 3..i + 5])
    else if DayFirstShape(s, i, 2, 1) then Some(s[i + 3..i + 4])
    else if DayFirstShape(s, i, 1, 2) then Some(s[i + 2..i + 4])
    else if DayFirstShape(s, i, 1, 1) then Some(s[i + 2..i + 3])
    else None
  }

  /**
   * `(\d{4})[/-](\d{b})[/-](\d{1,2})` matches at index `i`; the last group
   * succeeds exactly when one digit follows, whatever its length ends up being.
   */
  predicate YearFirstShape(s: string, i: int, b: nat) {
    DigitsAt(s, i, 4) && SeparatorAt(s, i + 4) && DigitsAt(s, i + 5, b) &&
    SeparatorAt(s, i + 5 + b) && DigitsAt(s, i + 6 + b, 1)
  }

  /** The second alternative tried at index `i`; the result is group 5, the month. */
  function YearFirstAt(s: string, i: nat): (g: Option<string>)
    ensures g.Some? ==> 1 <= |g.value| <= 2 && AllDigits(g.value)
  {
    if YearFirstShape(s, i, 2) then Some(s[i + 5..i + 7])
    else if YearFirstShape(s, i, 1) then Some(s[i + 5..i + 6])
    else None
  }

  /**
   * `s.match(regexData)` from index `from` on: the unanchored pattern is tried at
   * each start index in turn, the day-first alternative before the year-first
   * one, and the month group of the first success is returned.
   */
  function DateMonthGroup(s: string, from: nat): (g: Option<string>)
    requires from <= |s|
    ensures g.Some? ==> 1 <= |g.value| <= 2 && AllDigits(g.value)
    decreases |s| - from
  {
    if DayFirstAt(s, from).Some? then DayFirstAt(s, from)
    else if YearFirstAt(s, from).Some? then YearFirstAt(s, from)
    else if from == |s| then None
    else DateMonthGroup(s, from + 1)
  }

  /** The lookup key: `data.trim().toLowerCase()`. */
  function Normalize(data: string): string {
    ToLower(Trim(data))
  }

  /** `extrairMes`, with the name table read as a dictionary of its own entries only. */
  function ExtractMonth(data: string): (m: string)
    ensures IsMonthCode(m)
    ensures data == [] ==> m == Fallback
  {
    if data == [] then Fallback
    else
      var normalized := Normalize(data);
      match Get(MonthNames, normalized)
      case Some(code) =>
        GetFound(MonthNames, normalized);
        MonthNamesAreCodes();
        code
      case None => DateMonth(normalized)
  }

  /** The date branch of `extrairMes`: the month of the first date match, or the fallback. */
  function DateMonth(normalized: string): (m: string)
    ensures IsMonthCode(m)
  {
    match DateMonthGroup(normalized, 0)
    case Some(group) => MonthNumbered(ParseInt(group).GetOr(0))
    case None => Fallback
  }

  // ---------------------------------------------------------------------------
  // extrairMes as written: `meses` is a plain object, so `meses[normalized]`
  // also reads the members every object inherits from `Object.prototype`.

  /** The inherited members of a plain object whose names are all lower case. */
  const InheritedNames: seq<string> := ["constructor", "__proto__"]

  /** What `extrairMes` can return: a string, or an inherited non-string member (a function or an object), named by its key. */
  datatype MonthValue = Text(text: string) | Member(name: string)

  /** `extrairMes` as written: after the literal's own entries, an inherited member is truthy and returned as is. */
  function ExtractMonthAsWritten(data: string): (v: MonthValue)
    ensures data == [] ==> v == Text(Fallback)
    ensures v.Text? ==> IsMonthCode(v.text)
    ensures v.Member? ==> v.name in InheritedNames
  {
    if data == [] then Text(Fallback)
    else
      var normalized := Normalize(data);
      match Get(MonthNames, normalized)
      case Some(code) =>
        GetFound(MonthNames, normalized);
        MonthNamesAreCodes();
        Text(code)
      case None =>
        if normalized in InheritedNames then Member(normalized)
        else Text(DateMonth(normalized))
  }

  /** Off the two inherited names, the code as written returns what the corrected ExtractMonth returns. */
  lemma ExtractMonthAsWrittenAgrees(data: string)
    requires Normalize(data) !in InheritedNames
    ensures ExtractMonthAsWritten(data) == Text(ExtractMonth(data))
  {
  }

  /** No table name is an inherited name. */
  lemma InheritedNamesMissing(key: string)
    requires key in InheritedNames
    ensures Get(MonthNames, key) == None
  {
    GetMissing(MonthNames, key);
    MonthNamesShape();
    assert |key| == 11 || key[0] == '_';
  }

  /** Every table name has at most nine characters and starts with a letter from `a` to `z`. */
  lemma MonthNamesShape()
    ensures forall i :: 0 <= i < |MonthNames| ==>
      |MonthNames[i].0| <= 9 && MonthNames[i].0 != [] && 'a' <= MonthNames[i].0[0] <= 'z'
  {
  }

  /**
   * The code as written on a cell that normalizes to `constructor` or `__proto__`
   * (such as `Constructor`): the result is not a month code but an inherited member.
   */
  lemma ExtractMonthAsWrittenInherited(data: string)
    requires data != [] && Normalize(data) in InheritedNames
    ensures ExtractMonthAsWritten(data) == Member(Normalize(data))
  {
    InheritedNamesMissing(Normalize(data));
  }

  /** `Constructor` normalizes to an inherited name. */
  lemma NormalizeConstructor(d: string)
    requires d == "Constructor"
    ensures Normalize(d) == "constructor" && Normalize(d) in InheritedNames
  {
    TrimUnpadded(d);
    assert ToLower(d) == "constructor";
  }

  // ---------------------------------------------------------------------------
  // What extrairMes promises

  /** Trimming keeps the first `n` characters when the first and the `n`-th are not white space. */
  lemma TrimKeepsRun(s: string, n: nat)
    requires 0 < n <= |s| && !IsWhiteSpace(s[0]) && !IsWhiteSpace(s[n - 1])
    ensures n <= |Trim(s)| && forall i :: 0 <= i < n ==> Trim(s)[i] == s[i]
  {
    var t := Trim(s);
    var a :| SegmentWithin(s, a, t);
    assert a == 0;
    assert n - 1 < |t|;
    forall i | 0 <= i < n ensures t[i] == s[i] {
      assert t[i] == s[a..a + |t|][i];
    }
  }

  /** The characters a date of either shape is made of. */
  predicate IsDateChar(c: char) {
    IsDigit(c) || IsSeparator(c)
  }

  /** Lower-casing keeps a run of date characters. */
  lemma LowerKeepsRun(t: string, n: nat)
    requires n <= |t| && forall i :: 0 <= i < n ==> IsDateChar(t[i])
    ensures forall i :: 0 <= i < n ==> ToLower(t)[i] == t[i]
  {
  }

  /**
   * A string that begins with a run of `n` date characters, starting and
   * ending with a digit, keeps that run at its front when normalized.
   */
  lemma NormalizeKeepsDateRun(s: string, n: nat)
    requires 0 < n <= |s| && (forall i :: 0 <= i < n ==> IsDateChar(s[i]))
    requires IsDigit(s[0]) && IsDigit(s[n - 1])
    ensures n <= |Normalize(s)| && forall i :: 0 <= i < n ==> Normalize(s)[i] == s[i]
  {
    TrimKeepsRun(s, n);
    LowerKeepsRun(Trim(s), n);
  }



  /** A key that starts with a digit is not a month name. */
  lemma NotAMonthName(n: string)
    requires n != [] && IsDigit(n[0])
    ensures Get(MonthNames, n) == None
  {
    MonthNamesShape();
    GetMissing(MonthNames, n);
  }

  /** Past the name table, the month comes from the month group of the first date match. */
  lemma ExtractMonthOfDateGroup(s: string, group: string)
    requires s != [] && Get(MonthNames, Normalize(s)) == None
    requires DateMonthGroup(Normalize(s), 0) == Some(group)
    requires AllDigits(group) && group != []
    ensures ExtractMonth(s) == MonthNumbered(DigitsValue(group))
  {
    ParseIntOfAllDigits(group);
  }

  /** Two strings that agree on their first `n` characters agree on every segment within them. */
  lemma SamePrefix(x: string, y: string, n: nat)
    requires n <= |x| && n <= |y| && x[..n] == y[..n]
    ensures forall i, j :: 0 <= i <= j <= n ==> x[i..j] == y[i..j]
    ensures forall i :: 0 <= i < n ==> x[i] == y[i]
  {
    forall i, j | 0 <= i <= j <= n ensures x[i..j] == y[i..j] {
      assert x[i..j] == x[..n][i..j];
      assert y[i..j] == y[..n][i..j];
    }
    forall i | 0 <= i < n ensures x[i] == y[i] {
      assert x[i] == x[..n][i];
    }
  }

  /** A day-first date of day length `d` and month length `m` occupies the first `d + m + 6` characters: date characters, with a digit at each end. */
  lemma DayFirstRun(s: string, d: nat, m: nat)
    requires 1 <= d <= 2 && 1 <= m <= 2 && DayFirstShape(s, 0, d, m)
    ensures d + m + 6 <= |s| && (forall i :: 0 <= i < d + m + 6 ==> IsDateChar(s[i]))
    ensures IsDigit(s[0]) && IsDigit(s[d + m + 5])
  {
    forall i | 0 <= i < d + m + 6 ensures IsDateChar(s[i]) {
      if i < d { assert s[i] == s[0..d][i]; }
      else if i == d { }
      else if i < d + 1 + m { assert s[i] == s[d + 1..d + 1 + m][i - d - 1]; }
      else if i == d + 1 + m { }
      else { assert s[i] == s[d + m + 2..d + m + 6][i - d - m - 2]; }
    }
    assert s[0] == s[0..d][0];
    assert s[d + m + 5] == s[d + m + 2..d + m + 6][3];
  }

  /** A year-first date of month length `m` occupies the first `m + 7` characters: date characters, with a digit at each end. */
  lemma YearFirstRun(s: string, m: nat)
    requires 1 <= m <= 2 && YearFirstShape(s, 0, m)
    ensures m + 7 <= |s| && (forall i :: 0 <= i < m + 7 ==> IsDateChar(s[i]))
    ensures IsDigit(s[0]) && IsDigit(s[m + 6])
  {
    forall i | 0 <= i < m + 7 ensures IsDateChar(s[i]) {
      if i < 4 { assert s[i] == s[0..4][i]; }
      else if i == 4 { }
      else if i < 5 + m { assert s[i] == s[5..5 + m][i - 5]; }
      else if i == 5 + m { }
      else { assert s[i] == s[6 + m..7 + m][0]; }
    }
    assert s[0] == s[0..4][0];
  }

  /** No date of either shape starts before index `i`. */
  predicate NoDateBefore(n: string, i: int) {
    (forall j, a, b :: 0 <= j < i && 1 <= a <= 2 && 1 <= b <= 2 ==> !DayFirstShape(n, j, a, b)) &&
    (forall j, b :: 0 <= j < i && 1 <= b <= 2 ==> !YearFirstShape(n, j, b))
  }

  /** The scan passes over the start indexes at which no date starts. */
  lemma {:induction false} DateMonthGroupSkips(n: string, from: nat, i: nat)
    requires from <= i <= |n| && NoDateBefore(n, i)
    ensures DateMonthGroup(n, from) == DateMonthGroup(n, i)
    decreases i - from
  {
    if from < i {
      assert DayFirstAt(n, from) == None;
      assert YearFirstAt(n, from) == None;
      DateMonthGroupSkips(n, from + 1, i);
    }
  }

  /** When a day-first date starts at index `i`, the first alternative matches there, with its month group. */
  lemma DayFirstAtIndex(x: string, i: nat, d: nat, m: nat)
    requires 1 <= d <= 2 && 1 <= m <= 2 && DayFirstShape(x, i, d, m)
    ensures DateMonthGroup(x, i) == Some(x[i + d + 1..i + d + 1 + m])
  {
    if d == 1 {
      assert !DigitsAt(x, i, 2) by { assert x[i..i + 2][1] == x[i + 1]; }
    }
    if m == 1 {
      assert !DigitsAt(x, i + d + 1, 2) by { assert x[i + d + 1..i + d + 3][1] == x[i + d + 2]; }
    }
    assert DayFirstAt(x, i) == Some(x[i + d + 1..i + d + 1 + m]);
  }

  /** When a year-first date starts at index `i`, the first alternative fails there and the second matches, with its month group. */
  lemma YearFirstAtIndex(x: string, i: nat, m: nat)
    requires 1 <= m <= 2 && YearFirstShape(x, i, m)
    ensures DateMonthGroup(x, i) == Some(x[i + 5..i + 5 + m])
  {
    assert IsDigit(x[i + 1]) && IsDigit(x[i + 2]) by {
      assert x[i + 1] == x[i..i + 4][1] && x[i + 2] == x[i..i + 4][2];
    }
    assert DayFirstAt(x, i) == None;
    if m == 1 {
      assert !DigitsAt(x, i + 5, 2) by { assert x[i + 5..i + 7][1] == x[i + 6]; }
    }
    assert YearFirstAt(x, i) == Some(x[i + 5..i + 5 + m]);
  }

  /** A day-first date at index 0 gives its month group. */
  lemma DayFirstAtStart(x: string, d: nat, m: nat)
    requires 1 <= d <= 2 && 1 <= m <= 2 && DayFirstShape(x, 0, d, m)
    ensures DateMonthGroup(x, 0) == Some(x[d + 1..d + 1 + m])
  {
    DayFirstAtIndex(x, 0, d, m);
  }

  /** A year-first date at index 0 gives its month group. */
  lemma YearFirstAtStart(x: string, m: nat)
    requires 1 <= m <= 2 && YearFirstShape(x, 0, m)
    ensures DateMonthGroup(x, 0) == Some(x[5..5 + m])
  {
    YearFirstAtIndex(x, 0, m);
  }

  /** No name of the table holds a digit. */
  lemma MonthNamesWithoutDigits()
    ensures forall e, k :: 0 <= e < |MonthNames| && 0 <= k < |MonthNames[e].0| ==> !IsDigit(MonthNames[e].0[k])
  {
  }

  /** A key holding a digit is not a month name. */
  lemma KeyWithDigit(n: string, i: nat)
    requires i < |n| && IsDigit(n[i])
    ensures Get(MonthNames, n) == None
  {
    MonthNamesWithoutDigits();
    forall e | 0 <= e < |MonthNames| ensures MonthNames[e].0 != n {
      if i < |MonthNames[e].0| {
        assert !IsDigit(MonthNames[e].0[i]);
      }
    }
    GetMissing(MonthNames, n);
  }

  /** A normalized text that is not empty comes from a text that is not empty. */
  lemma NormalizeNonEmpty(s: string)
    requires Normalize(s) != []
    ensures s != []
  {
    var a :| SegmentWithin(s, a, Trim(s));
  }

  /** A text whose lookup key holds a digit is not empty and is not a month name. */
  lemma DigitAtNormalizedKey(s: string, i: nat)
    requires i < |Normalize(s)| && IsDigit(Normalize(s)[i])
    ensures s != [] && Get(MonthNames, Normalize(s)) == None
  {
    KeyWithDigit(Normalize(s), i);
    NormalizeNonEmpty(s);
  }

  /** When the first date starts at index `i` and is day-first, the scan returns its month group. */
  lemma FirstDayFirst(n: string, i: nat, d: nat, m: nat)
    requires 1 <= d <= 2 && 1 <= m <= 2
    requires DayFirstShape(n, i, d, m) && NoDateBefore(n, i)
    ensures IsDigit(n[i])
    ensures DateMonthGroup(n, 0) == Some(n[i + d + 1..i + d + 1 + m])
  {
    assert n[i] == n[i..i + d][0];
    DateMonthGroupSkips(n, 0, i);
    DayFirstAtIndex(n, i, d, m);
  }

  /** When the first date starts at index `i` and is year-first, the scan returns its month group. */
  lemma FirstYearFirst(n: string, i: nat, m: nat)
    requires 1 <= m <= 2
    requires YearFirstShape(n, i, m) && NoDateBefore(n, i)
    ensures IsDigit(n[i])
    ensures DateMonthGroup(n, 0) == Some(n[i + 5..i + 5 + m])
  {
    assert n[i] == n[i..i + 4][0];
    DateMonthGroupSkips(n, 0, i);
    YearFirstAtIndex(n, i, m);
  }

  /**
   * `extrairMes` when the first date in the normalized text is a day-first
   * date `D[/-]M[/-]YYYY` starting at index `i` (`d` and `m` are the lengths
   * of its day and month groups): whatever comes before it holds no date, and
   * whatever follows it, even another date, is ignored. The month number is
   * read from the middle group, and a number outside 1..12 gives the fallback.
   */
  lemma ExtractMonthDayFirst(s: string, i: nat, d: nat, m: nat)
    requires 1 <= d <= 2 && 1 <= m <= 2
    requires DayFirstShape(Normalize(s), i, d, m) && NoDateBefore(Normalize(s), i)
    ensures AllDigits(Normalize(s)[i + d + 1..i + d + 1 + m])
    ensures ExtractMonth(s) == MonthNumbered(DigitsValue(Normalize(s)[i + d + 1..i + d + 1 + m]))
  {
    var n := Normalize(s);
    FirstDayFirst(n, i, d, m);
    DigitAtNormalizedKey(s, i);
    ExtractMonthOfDateGroup(s, n[i + d + 1..i + d + 1 + m]);
  }

  /**
   * `extrairMes` when the first date in the normalized text is a year-first
   * date `YYYY[/-]M[/-]D` starting at index `i` (`m` is the length of its
   * month group): it wins over any day-first date that starts later, and the
   * month number is read from its middle group.
   */
  lemma ExtractMonthYearFirst(s: string, i: nat, m: nat)
    requires 1 <= m <= 2
    requires YearFirstShape(Normalize(s), i, m) && NoDateBefore(Normalize(s), i)
    ensures AllDigits(Normalize(s)[i + 5..i + 5 + m])
    ensures ExtractMonth(s) == MonthNumbered(DigitsValue(Normalize(s)[i + 5..i + 5 + m]))
  {
    var n := Normalize(s);
    FirstYearFirst(n, i, m);
    DigitAtNormalizedKey(s, i);
    ExtractMonthOfDateGroup(s, n[i + 5..i + 5 + m]);
  }

  /**
   * `extrairMes` on input that starts with a day-first date `D[/-]M[/-]YYYY`,
   * whatever follows: the month number is read from the middle group, and a
   * number outside 1..12 gives the fallback. So `15/03/2024` gives `Mar` and
   * `1/0/2024` gives `Jan`.
   */
  lemma ExtractMonthDayFirstAtStart(s: string, d: nat, m: nat)
    requires 1 <= d <= 2 && 1 <= m <= 2 && DayFirstShape(s, 0, d, m)
    ensures AllDigits(s[d + 1..d + 1 + m])
    ensures ExtractMonth(s) == MonthNumbered(DigitsValue(s[d + 1..d + 1 + m]))
  {
    DayFirstScan(s, d, m);
    ExtractMonthOfDateGroup(s, s[d + 1..d + 1 + m]);
  }

  /** A text that starts with a day-first date is not a month name, and the scan finds that date first. */
  lemma DayFirstScan(s: string, d: nat, m: nat)
    requires 1 <= d <= 2 && 1 <= m <= 2 && DayFirstShape(s, 0, d, m)
    ensures s != [] && Get(MonthNames, Normalize(s)) == None
    ensures DateMonthGroup(Normalize(s), 0) == Some(s[d + 1..d + 1 + m])
  {
    var n := Normalize(s);
    DayFirstNormalized(s, d, m);
    DayFirstAtStart(n, d, m);
    NotAMonthName(n);
  }

  /** Normalizing keeps a leading day-first date in place. */
  lemma DayFirstNormalized(s: string, d: nat, m: nat)
    requires 1 <= d <= 2 && 1 <= m <= 2 && DayFirstShape(s, 0, d, m)
    ensures s != [] && Normalize(s) != [] && IsDigit(Normalize(s)[0])
    ensures DayFirstShape(Normalize(s), 0, d, m)
    ensures Normalize(s)[d + 1..d + 1 + m] == s[d + 1..d + 1 + m]
  {
    DayFirstRun(s, d, m);
    NormalizeKeepsDateRun(s, d + m + 6);
    DayFirstShapeOfPrefix(s, Normalize(s), d, m);
  }

  /** A day-first date at the front of `x` is at the front of every string that starts like `x`. */
  lemma DayFirstShapeOfPrefix(x: string, y: string, d: nat, m: nat)
    requires 1 <= d <= 2 && 1 <= m <= 2 && DayFirstShape(x, 0, d, m)
    requires d + m + 6 <= |y| && forall i :: 0 <= i < d + m + 6 ==> y[i] == x[i]
    ensures DayFirstShape(y, 0, d, m) && y != [] && IsDigit(y[0])
    ensures y[d + 1..d + 1 + m] == x[d + 1..d + 1 + m]
  {
    assert y[..d + m + 6] == x[..d + m + 6];
    SamePrefix(x, y, d + m + 6);
    assert IsDigit(y[0]) by { assert y[0] == y[0..d][0]; }
    assert y[0..d] == x[0..d];
    assert y[d + m + 2..d + m + 6] == x[d + m + 2..d + m + 6];
    assert y[d] == x[d] && y[d + 1 + m] == x[d + 1 + m];
  }

  /**
   * `extrairMes` on input that starts with a year-first date `YYYY[/-]M[/-]D`,
   * whatever follows: the month number is read from the middle group, so
   * `2024-03-15` gives `Mar` and `2024-13-01` gives `Jan`.
   */
  lemma ExtractMonthYearFirstAtStart(s: string, m: nat)
    requires 1 <= m <= 2 && YearFirstShape(s, 0, m)
    ensures AllDigits(s[5..5 + m])
    ensures ExtractMonth(s) == MonthNumbered(DigitsValue(s[5..5 + m]))
  {
    YearFirstScan(s, m);
    ExtractMonthOfDateGroup(s, s[5..5 + m]);
  }

  /** A text that starts with a year-first date is not a month name, and the scan finds that date first. */
  lemma YearFirstScan(s: string, m: nat)
    requires 1 <= m <= 2 && YearFirstShape(s, 0, m)
    ensures s != [] && Get(MonthNames, Normalize(s)) == None
    ensures DateMonthGroup(Normalize(s), 0) == Some(s[5..5 + m])
  {
    var n := Normalize(s);
    YearFirstNormalized(s, m);
    YearFirstAtStart(n, m);
    NotAMonthName(n);
  }

  /** Normalizing keeps a leading year-first date in place. */
  lemma YearFirstNormalized(s: string, m: nat)
    requires 1 <= m <= 2 && YearFirstShape(s, 0, m)
    ensures s != [] && Normalize(s) != [] && IsDigit(Normalize(s)[0])
    ensures YearFirstShape(Normalize(s), 0, m)
    ensures Normalize(s)[5..5 + m] == s[5..5 + m]
  {
    YearFirstRun(s, m);
    NormalizeKeepsDateRun(s, m + 7);
    YearFirstShapeOfPrefix(s, Normalize(s), m);
  }

  /** A year-first date at the front of `x` is at the front of every string that starts like `x`. */
  lemma YearFirstShapeOfPrefix(x: string, y: string, m: nat)
    requires 1 <= m <= 2 && YearFirstShape(x, 0, m)
    requires m + 7 <= |y| && forall i :: 0 <= i < m + 7 ==> y[i] == x[i]
    ensures YearFirstShape(y, 0, m) && y != [] && IsDigit(y[0])
    ensures y[5..5 + m] == x[5..5 + m]
  {
    assert y[..m + 7] == x[..m + 7];
    SamePrefix(x, y, m + 7);
    assert IsDigit(y[0]) by { assert y[0] == y[0..4][0]; }
    assert y[0..4] == x[0..4];
    assert y[6 + m..7 + m] == x[6 + m..7 + m];
    assert y[4] == x[4] && y[5 + m] == x[5 + m];
  }

  /** Without any digit the date pattern cannot match anywhere. */
  lemma {:induction false} DateMonthGroupWithoutDigits(s: string, from: nat)
    requires from <= |s|
    requires forall i :: 0 <= i < |s| ==> !IsDigit(s[i])
    ensures DateMonthGroup(s, from) == None
    decreases |s| - from
  {
    assert !DigitsAt(s, from, 1) && !DigitsAt(s, from, 2) && !DigitsAt(s, from, 4) by {
      if from < |s| {
        assert s[from..from + 1][0] == s[from];
      }
    }
    if from < |s| {
      DateMonthGroupWithoutDigits(s, from + 1);
    }
  }

  /** Trimming brings in no digit. */
  lemma TrimWithoutDigits(s: string)
    requires forall i :: 0 <= i < |s| ==> !IsDigit(s[i])
    ensures forall i :: 0 <= i < |Trim(s)| ==> !IsDigit(Trim(s)[i])
  {
    var t := Trim(s);
    var a :| SegmentWithin(s, a, t);
    forall i | 0 <= i < |t| ensures !IsDigit(t[i]) {
      assert t[i] == s[a + i];
    }
  }

  /** Lower-casing brings in no digit. */
  lemma LowerWithoutDigits(t: string)
    requires forall i :: 0 <= i < |t| ==> !IsDigit(t[i])
    ensures forall i :: 0 <= i < |ToLower(t)| ==> !IsDigit(ToLower(t)[i])
  {
  }

  /** Without a digit there is no date, so the date branch falls back to `Jan`. */
  lemma DateMonthWithoutDigits(n: string)
    requires forall i :: 0 <= i < |n| ==> !IsDigit(n[i])
    ensures DateMonth(n) == Fallback
  {
    DateMonthGroupWithoutDigits(n, 0);
  }

  /** Text without digits that is not a month name falls back to `Jan`. */
  lemma ExtractMonthWithoutDigits(data: string)
    requires forall i :: 0 <= i < |data| ==> !IsDigit(data[i])
    requires Get(MonthNames, Normalize(data)) == None
    ensures ExtractMonth(data) == Fallback
  {
    TrimWithoutDigits(data);
    LowerWithoutDigits(Trim(data));
    DateMonthWithoutDigits(Normalize(data));
  }

  /** A non-empty input whose normalized form is a name in the table gives that name's code. */
  lemma ExtractMonthOfName(data: string, key: string, code: string)
    requires data != [] && ToLower(Trim(data)) == key && Get(MonthNames, key) == Some(code)
    ensures ExtractMonth(data) == code
  {
  }

  /** The normal forms of two worked name inputs: the table's own spelling, and upper case. */
  lemma NormalizeExamples(a: string, c: string)
    requires a == "março" && c == "MAR"
    ensures Normalize(a) == "março" && Normalize(c) == "mar"
  {
    TrimUnpadded(a);
    assert ToLower(a) == "março";
    TrimUnpadded(c);
    assert ToLower(c) == "mar";
  }

  /** The normal form of a worked name input in English, capitalised and padded with blanks. */
  lemma NormalizePaddedExample(b: string)
    requires b == " March "
    ensures Normalize(b) == "march"
  {
    var r := b[1..6];
    assert SegmentWithin(b, 1, r);
    TrimUnique(b, 1, r);
    assert ToLower(r) == "march";
  }

  /** The three names of March in the table. */
  lemma MarchNames(key: string)
    requires key == "março" || key == "march" || key == "mar"
    ensures Get(MonthNames, key) == Some("Mar")
  {
    if key == "março" {
      GetFirst(MonthNames, 6, key);
    } else if key == "march" {
      GetFirst(MonthNames, 7, key);
    } else {
      GetFirst(MonthNames, 8, key);
    }
  }

  /** Whatever normalizes to one of the names of March gives `Mar`; with NormalizeExamples and NormalizePaddedExample, so do `março`, ` March ` and `MAR`. */
  lemma ExtractMonthOfMarch(data: string)
    requires data != []
    requires Normalize(data) == "março" || Normalize(data) == "march" || Normalize(data) == "mar"
    ensures ExtractMonth(data) == "Mar"
  {
    MarchNames(Normalize(data));
    ExtractMonthOfName(data, Normalize(data), "Mar");
  }

  /** The worked date inputs have the date shapes the lemmas below take. */
  lemma DateShapeExamples(a: string, b: string, c: string, d: string)
    requires a == "15/03/2024" && b == "2024-03-15" && c == "2024-13-01" && d == "1/0/2024"
    ensures DayFirstShape(a, 0, 2, 2) && a[3..5] == "03"
    ensures YearFirstShape(b, 0, 2) && b[5..7] == "03"
    ensures YearFirstShape(c, 0, 2) && c[5..7] == "13"
    ensures DayFirstShape(d, 0, 1, 1) && d[2..3] == "0"
  {
  }

  /** The month a two-digit group names is read from its two digits. */
  lemma MonthOfGroup(g: string, n: int)
    requires |g| == 2 && AllDigits(g) && n == 10 * DigitValue(g[0]) + DigitValue(g[1])
    ensures MonthNumbered(DigitsValue(g)) == MonthNumbered(n)
  {
    DigitsValueShort(g);
  }

  /** Any `DD/03/YYYY` at the front gives `Mar`, as `15/03/2024` does. */
  lemma ExtractMonthDayFirstMarch(a: string)
    requires DayFirstShape(a, 0, 2, 2) && a[3..5] == "03"
    ensures ExtractMonth(a) == MonthCodes[2]
  {
    ExtractMonthDayFirstAtStart(a, 2, 2);
    MonthOfGroup(a[3..5], 3);
  }

  /** Any `YYYY-03-D` at the front gives `Mar`, as `2024-03-15` does. */
  lemma ExtractMonthYearFirstMarch(b: string)
    requires YearFirstShape(b, 0, 2) && b[5..7] == "03"
    ensures ExtractMonth(b) == MonthCodes[2]
  {
    ExtractMonthYearFirstAtStart(b, 2);
    MonthOfGroup(b[5..7], 3);
  }

  /** Month 13 is out of range: any `YYYY-13-D` at the front gives `Jan`, as `2024-13-01` does. */
  lemma ExtractMonthThirteen(c: string)
    requires YearFirstShape(c, 0, 2) && c[5..7] == "13"
    ensures ExtractMonth(c) == Fallback
  {
    ExtractMonthYearFirstAtStart(c, 2);
    MonthOfGroup(c[5..7], 13);
  }

  /** Month 0 is out of range: any `D/0/YYYY` at the front gives `Jan`, as `1/0/2024` does. */
  lemma ExtractMonthZero(d: string)
    requires DayFirstShape(d, 0, 1, 1) && d[2..3] == "0"
    ensures ExtractMonth(d) == Fallback
  {
    ExtractMonthDayFirstAtStart(d, 1, 1);
    DigitsValueShort(d[2..3]);
  }
}
