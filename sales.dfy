/**
 * The sale record and `cleanData`, which turns the rows of the first sheet
 * into sales: it keeps rows with a category, a product and a revenue cell,
 * normalizes each field, and keeps only rows whose month is a month code.
 */
module Sales {

  import opened Wrappers
  import opened JsText
  import opened JsNumber
  import opened Lists
  import opened Months
  import opened Categories

  /** One cleaned sale. */
  datatype Sale = Sale(
    Data: string,
    Categoria: string,
    Codigo_Produto: string,
    Produto: string,
    Quantidade: int,
    Receita: real,
    Mes: string)

  /** A row of the sheet: the text of each cell present, by column header. */
  type Row = map<string, string>

  /** `row[name]`; `None` stands for `undefined`, a cell the row does not have. */
  function Cell(row: Row, name: string): Option<string> {
    if name in row then Some(row[name]) else None
  }

  /** `String(v)`. */
  function Str(v: Option<string>): string {
    if v.Some? then v.value else "undefined"
  }

  /** A cell is truthy when it is present and not empty. */
  predicate Truthy(v: Option<string>) {
    v.Some? && v.value != ""
  }

  /** The first filter: `row.Categoria && row.Produto && row.Receita !== undefined`. */
  predicate IsCandidate(row: Row) {
    Truthy(Cell(row, "Categoria")) && Truthy(Cell(row, "Produto")) && Cell(row, "Receita").Some?
  }

  /** `String(row.Data ?? row.Mes ?? '')`: the text the month is read from. */
  function MonthSource(row: Row): string {
    Cell(row, "Data").GetOr(Cell(row, "Mes").GetOr(""))
  }

  /** `parseInt(String(cell), 10) || 0`. */
  function ParseQuantity(cell: Option<string>): (q: int)
    ensures q < 0 ==> IsNegative(TrimStart(Str(cell)))
  {
    ParseInt(Str(cell)).GetOr(0)
  }

  /** The revenue text in decimal-point form: `R$` dropped, every `.` dropped, the first `,` made a `.`. */
  function RevenueText(s: string): string {
    ReplaceFirst(RemoveAll(ReplaceFirst(s, "R$", ""), '.'), ",", ".")
  }

  /** `parseFloat(...) || 0` on the revenue text. */
  function ParseRevenue(s: string): (r: real)
    ensures r < 0.0 ==> IsNegative(TrimStart(RevenueText(s)))
  {
    ParseFloat(RevenueText(s)).GetOr(0.0)
  }

  /** The `map` step of `cleanData`; `today` is the date part of `new Date().toISOString()`. */
  function ToSale(row: Row, today: string): (sale: Sale)
    ensures IsMonthCode(sale.Mes)
    ensures IsCanonical(sale.Categoria) || sale.Categoria == CategoryKey(Cell(row, "Categoria").GetOr(""))
  {
    Sale(
      Data := if Truthy(Cell(row, "Data")) then row["Data"] else today,
      Categoria := NormalizeCategory(Cell(row, "Categoria").GetOr("")),
      Codigo_Produto := ToUpper(Trim(Cell(row, "Codigo_Produto").GetOr(""))),
      Produto := Trim(Str(Cell(row, "Produto"))),
      Quantidade := ParseQuantity(Cell(row, "Quantidade")),
      Receita := ParseRevenue(Str(Cell(row, "Receita"))),
      Mes := ExtractMonth(MonthSource(row)))
  }

  /** The last filter: `MESES_VALIDOS.has(row.Mes)`. */
  predicate HasMonthCode(sale: Sale) {
    IsMonthCode(sale.Mes)
  }

  /** `cleanData(rows)`. */
  function CleanData(rows: seq<Row>, today: string): (sales: seq<Sale>)
    ensures |sales| <= |rows|
    ensures forall i :: 0 <= i < |sales| ==> IsMonthCode(sales[i].Mes)
  {
    var candidates := Filter(rows, IsCandidate);
    var mapped := MapSeq(candidates, row => ToSale(row, today));
    FilterHolds(rows, IsCandidate);
    FilterHolds(mapped, HasMonthCode);
    Filter(mapped, HasMonthCode)
  }

  // ---------------------------------------------------------------------------
  // What cleanData promises

  /**
   * The month filter never rejects a row: the result is exactly one sale per
   * candidate row, in order, each with a month code.
   */
  lemma CleanDataKeepsCandidates(rows: seq<Row>, today: string)
    ensures CleanData(rows, today) == MapSeq(Filter(rows, IsCandidate), row => ToSale(row, today))
    ensures |CleanData(rows, today)| == |Filter(rows, IsCandidate)|
    ensures forall i :: 0 <= i < |CleanData(rows, today)| ==> IsMonthCode(CleanData(rows, today)[i].Mes)
  {
    FilterAll(MapSeq(Filter(rows, IsCandidate), row => ToSale(row, today)), HasMonthCode);
  }

  /** The sale of a candidate row: a listed or upper-cased category, a trimmed product name and a month code. */
  lemma SaleFields(row: Row, today: string)
    requires IsCandidate(row)
    ensures IsCanonical(ToSale(row, today).Categoria) || ToSale(row, today).Categoria == CategoryKey(row["Categoria"])
    ensures ToSale(row, today).Produto == Trim(row["Produto"])
    ensures IsMonthCode(ToSale(row, today).Mes)
  {
  }

  /** A product cell of white space only passes the first filter, and the sale gets an empty product name. */
  lemma BlankProductKept(row: Row, today: string)
    requires IsCandidate(row)
    requires forall i :: 0 <= i < |row["Produto"]| ==> IsWhiteSpace(row["Produto"][i])
    ensures ToSale(row, today).Produto == ""
  {
    var t := Trim(row["Produto"]);
    var a :| SegmentWithin(row["Produto"], a, t);
  }

  /** Rows are cleaned independently of each other. */
  lemma CleanDataAppend(a: seq<Row>, b: seq<Row>, today: string)
    ensures CleanData(a + b, today) == CleanData(a, today) + CleanData(b, today)
  {
    CleanDataKeepsCandidates(a + b, today);
    CleanDataKeepsCandidates(a, today);
    CleanDataKeepsCandidates(b, today);
    FilterAppend(a, b, IsCandidate);
    MapAppend(Filter(a, IsCandidate), Filter(b, IsCandidate), row => ToSale(row, today));
  }

  /** The date cell is kept when present and not empty; otherwise the sale is dated today. */
  lemma SaleDate(row: Row, today: string)
    ensures Truthy(Cell(row, "Data")) ==> ToSale(row, today).Data == row["Data"]
    ensures !Truthy(Cell(row, "Data")) ==> ToSale(row, today).Data == today
  {
  }

  /** A quantity cell of digits reads as its value; a missing one reads as 0. */
  lemma SaleQuantity(row: Row, today: string)
    ensures "Quantidade" in row && row["Quantidade"] != [] && AllDigits(row["Quantidade"]) ==>
      ToSale(row, today).Quantidade == DigitsValue(row["Quantidade"])
    ensures "Quantidade" !in row ==> ToSale(row, today).Quantidade == 0
  {
    if "Quantidade" in row && row["Quantidade"] != [] && AllDigits(row["Quantidade"]) {
      ParseIntOfAllDigits(row["Quantidade"]);
    }
    if "Quantidade" !in row {
      UndefinedIsNaN(Str(None));
    }
  }

  /**
   * `row.Data ?? row.Mes` stops at a date cell that is present, even empty:
   * the month cell is then never read, the month falls back to `Jan` and the
   * sale is dated today.
   */
  lemma EmptyDataIgnoresMes(row: Row, today: string)
    requires "Data" in row && row["Data"] == ""
    ensures MonthSource(row) == ""
    ensures ToSale(row, today).Mes == Fallback
    ensures ToSale(row, today).Data == today
  {
  }

  /** `parseInt('undefined', 10)` is NaN. */
  lemma UndefinedIsNaN(u: string)
    requires u == "undefined"
    ensures ParseInt(u) == None
  {
    assert forall i :: 0 <= i < |u| ==> !IsDigit(u[i]) by {
      forall i | 0 <= i < |u| ensures !IsDigit(u[i]) {
        assert u[i] in "undefind";
      }
    }
    ParseIntWithoutDigits(u);
  }

  // ---------------------------------------------------------------------------
  // The revenue format: `R$ 1.234,56` reads as 1234.56

  /** The digits of `s` with the thousands separators removed. */
  predicate DigitsAndPoints(s: string) {
    forall i :: 0 <= i < |s| ==> IsDigit(s[i]) || s[i] == '.'
  }

  /** Removing the thousands points leaves digits. */
  lemma PointsRemoved(whole: string)
    requires DigitsAndPoints(whole)
    ensures AllDigits(RemoveAll(whole, '.'))
  {
    var w := RemoveAll(whole, '.');
    forall i | 0 <= i < |w| ensures IsDigit(w[i]) {
      assert w[i] in w && w[i] != '.';
      var k :| 0 <= k < |whole| && whole[k] == w[i];
    }
  }

  /** `R$` is dropped from the front of the amount. */
  lemma CurrencyDropped(rest: string, s: string)
    requires s == "R$" + rest
    ensures ReplaceFirst(s, "R$", "") == rest
  {
    ReplaceFirstAt(s, "R$", "", 0);
    assert s[2..] == rest;
  }

  /** Only the points of the whole part are removed. */
  lemma WholePointsRemoved(whole: string, cents: string)
    requires AllDigits(cents)
    ensures RemoveAll(whole + [','] + cents, '.') == RemoveAll(whole, '.') + [','] + cents
  {
    var tail := [','] + cents;
    NoPointAfterComma(cents, tail);
    RemoveAllAbsent(tail, '.');
    RemoveAllAppend(whole, tail, '.');
    assert whole + [','] + cents == whole + tail;
    assert RemoveAll(whole, '.') + [','] + cents == RemoveAll(whole, '.') + tail;
  }

  lemma NoPointAfterComma(cents: string, tail: string)
    requires AllDigits(cents) && tail == [','] + cents
    ensures '.' !in tail
  {
    forall i | 0 <= i < |tail| ensures tail[i] != '.' {
      if i > 0 {
        assert tail[i] == cents[i - 1];
      }
    }
  }

  /** The decimal comma after the digits becomes a decimal point. */
  lemma DecimalCommaReplaced(w: string, cents: string)
    requires AllDigits(w)
    ensures ReplaceFirst(w + [','] + cents, ",", ".") == w + ['.'] + cents
  {
    var u := w + [','] + cents;
    assert OccursAt(u, ",", |w|) by {
      assert u[|w|..|w| + 1] == [','];
    }
    forall j | 0 <= j < |w| ensures !OccursAt(u, ",", j) {
      assert u[j] == w[j];
    }
    ReplaceFirstAt(u, ",", ".", |w|);
    assert u[..|w|] == w && u[|w| + 1..] == cents;
  }

  /** Text made of white space only, such as the blank between `R$` and the amount. */
  predicate Blank(ws: string) {
    forall i :: 0 <= i < |ws| ==> IsWhiteSpace(ws[i])
  }

  /** Blanks hold no point. */
  lemma BlankWithoutPoint(ws: string)
    requires Blank(ws)
    ensures '.' !in ws
  {
    assert forall k :: 0 <= k < |ws| ==> ws[k] != '.';
  }

  /** The points are removed from the amount and not from the blanks before it. */
  lemma BlankPointsRemoved(ws: string, amount: string)
    requires Blank(ws)
    ensures RemoveAll(ws + amount, '.') == ws + RemoveAll(amount, '.')
  {
    BlankWithoutPoint(ws);
    RemoveAllAbsent(ws, '.');
    RemoveAllAppend(ws, amount, '.');
  }

  /** The first comma after the blanks and the digits becomes a decimal point. */
  lemma BlankDecimalCommaReplaced(ws: string, w: string, cents: string)
    requires Blank(ws) && AllDigits(w)
    ensures ReplaceFirst(ws + w + [','] + cents, ",", ".") == ws + w + ['.'] + cents
  {
    var u := ws + w + [','] + cents;
    var k := |ws| + |w|;
    assert OccursAt(u, ",", k) by {
      assert u[k..k + 1] == [','];
    }
    forall j | 0 <= j < k ensures !OccursAt(u, ",", j) {
      if j < |ws| {
        assert u[j] == ws[j];
      } else {
        assert u[j] == w[j - |ws|];
      }
    }
    ReplaceFirstAt(u, ",", ".", k);
    assert u[..k] == ws + w && u[k + 1..] == cents;
  }

  lemma Regroup(ws: string, w: string, cents: string)
    ensures ws + (w + [','] + cents) == ws + w + [','] + cents
  {
  }

  /** `R$`, blanks, `<whole>,<cents>` is rewritten to the blanks, then `<whole digits>.<cents>`. */
  lemma RevenueTextOfAmount(ws: string, whole: string, cents: string, s: string)
    requires Blank(ws) && DigitsAndPoints(whole) && AllDigits(cents)
    requires s == "R$" + ws + whole + [','] + cents
    ensures RevenueText(s) == ws + RemoveAll(whole, '.') + ['.'] + cents
  {
    var amount := whole + [','] + cents;
    var w := RemoveAll(whole, '.');
    var dropped := ReplaceFirst(s, "R$", "");
    assert dropped == ws + amount by {
      assert s == "R$" + (ws + amount);
      CurrencyDropped(ws + amount, s);
    }
    var pointless := RemoveAll(dropped, '.');
    assert pointless == ws + w + [','] + cents by {
      BlankPointsRemoved(ws, amount);
      WholePointsRemoved(whole, cents);
      Regroup(ws, w, cents);
    }
    assert ReplaceFirst(pointless, ",", ".") == ws + w + ['.'] + cents by {
      PointsRemoved(whole);
      BlankDecimalCommaReplaced(ws, w, cents);
    }
  }

  /** `parseFloat` skips the blanks in front of a number. */
  lemma ParseFloatAfterBlank(ws: string, t: string)
    requires Blank(ws) && t != [] && !IsWhiteSpace(t[0])
    ensures ParseFloat(ws + t) == ParseFloat(t)
  {
    var u := ws + t;
    assert TrimStart(u) == t by {
      TrimStartAt(u, |ws|);
      assert u[|ws|..] == t;
    }
    assert TrimStart(t) == t by {
      TrimStartAt(t, 0);
    }
    ParseFloatSameStart(u, t);
  }

  /**
   * A Brazilian amount `R$ <whole>,<cents>`, with any blanks after `R$` and
   * `whole` made of digits and thousands points, reads as the whole digits
   * plus the fraction: `R$ 1.234,56` reads as 1234.56.
   */
  lemma RevenueOfBrazilianAmount(ws: string, whole: string, cents: string, s: string)
    requires Blank(ws) && DigitsAndPoints(whole) && RemoveAll(whole, '.') != [] && AllDigits(cents)
    requires s == "R$" + ws + whole + [','] + cents
    ensures AllDigits(RemoveAll(whole, '.'))
    ensures ParseRevenue(s) == DecimalValue(RemoveAll(whole, '.'), cents)
  {
    var w := RemoveAll(whole, '.');
    PointsRemoved(whole);
    var t := w + ['.'] + cents;
    assert RevenueText(s) == ws + t by {
      RevenueTextOfAmount(ws, whole, cents, s);
    }
    assert ParseFloat(ws + t) == ParseFloat(t) by {
      assert t[0] == w[0] && IsDigit(t[0]);
      ParseFloatAfterBlank(ws, t);
    }
    assert ParseFloat(t) == Some(DecimalValue(w, cents)) by {
      ParseFloatOfDecimal(w, cents, t);
    }
  }

  /**
   * A revenue cell of digits and points without a comma, such as `100.5`,
   * loses every point: it reads as the number its digits spell, 1005.
   */
  lemma RevenueOfPointedDigits(s: string)
    requires DigitsAndPoints(s) && RemoveAll(s, '.') != []
    ensures AllDigits(RemoveAll(s, '.'))
    ensures ParseRevenue(s) == DigitsValue(RemoveAll(s, '.')) as real
  {
    var w := RemoveAll(s, '.');
    PointsRemoved(s);
    NoCurrencySign(s);
    NoComma(w);
    ParseFloatOfDigits(w);
  }

  /** Digits and points hold no `R$`, so its replacement leaves them unchanged. */
  lemma NoCurrencySign(s: string)
    requires DigitsAndPoints(s)
    ensures ReplaceFirst(s, "R$", "") == s
  {
    forall j | 0 <= j ensures !OccursAt(s, "R$", j) {
      if j + 2 <= |s| {
        assert s[j..j + 2][0] == s[j];
      }
    }
    ReplaceFirstAbsent(s, "R$", "");
  }

  /** Digits hold no comma, so its replacement leaves them unchanged. */
  lemma NoComma(w: string)
    requires AllDigits(w)
    ensures ReplaceFirst(w, ",", ".") == w
  {
    forall j | 0 <= j ensures !OccursAt(w, ",", j) {
      if j + 1 <= |w| {
        assert w[j..j + 1][0] == w[j];
      }
    }
    ReplaceFirstAbsent(w, ",", ".");
  }

  // ---------------------------------------------------------------------------
  // cleanData as written: the month comes from `extrairMes` as written, and the
  // month filter drops a row whose month is an inherited member of `meses`.

  /** The month filter of the code as written: the value must be a string that is a month code. */
  predicate AcceptedAsWritten(row: Row) {
    var v := ExtractMonthAsWritten(MonthSource(row));
    v.Text? && IsMonthCode(v.text)
  }

  /**
   * `cleanData` as written. The code maps every row and then filters on the
   * month value it produced; a `Sale` here can only hold a text month, so this
   * model tests each row's month value first and builds a `Sale` only for the
   * rows that pass. The test reads nothing but the row's month value.
   */
  function CleanDataAsWritten(rows: seq<Row>, today: string): (sales: seq<Sale>)
    ensures |sales| <= |CleanData(rows, today)|
  {
    CleanDataKeepsCandidates(rows, today);
    FilterMembers(Filter(rows, IsCandidate), AcceptedAsWritten);
    MapSeq(Filter(Filter(rows, IsCandidate), AcceptedAsWritten), row => ToSale(row, today))
  }

  /** Where no month cell names an inherited member, the code as written and the corrected model agree. */
  lemma CleanDataAsWrittenAgrees(rows: seq<Row>, today: string)
    requires forall i :: 0 <= i < |rows| ==> Normalize(MonthSource(rows[i])) !in InheritedNames
    ensures CleanDataAsWritten(rows, today) == CleanData(rows, today)
  {
    var candidates := Filter(rows, IsCandidate);
    FilterMembers(rows, IsCandidate);
    forall i | 0 <= i < |candidates| ensures AcceptedAsWritten(candidates[i]) {
      assert candidates[i] in candidates;
      ExtractMonthAsWrittenAgrees(MonthSource(candidates[i]));
    }
    FilterAll(candidates, AcceptedAsWritten);
    CleanDataKeepsCandidates(rows, today);
  }

  /** A row whose month cell names an inherited member fails the month filter as written. */
  lemma InheritedMonthRejected(row: Row, d: string)
    requires MonthSource(row) == d && d != [] && Normalize(d) in InheritedNames
    ensures !AcceptedAsWritten(row)
  {
    assert ExtractMonthAsWritten(d).Member? by {
      ExtractMonthAsWrittenInherited(d);
    }
  }

  /** A date cell `Constructor` fails the month filter as written. */
  lemma ConstructorMonth(row: Row)
    requires "Data" in row && row["Data"] == "Constructor"
    ensures !AcceptedAsWritten(row)
  {
    var d := row["Data"];
    assert MonthSource(row) == d;
    assert Normalize(d) in InheritedNames by {
      NormalizeConstructor(d);
    }
    InheritedMonthRejected(row, d);
  }

  /**
   * A complete row whose date cell reads `Constructor` is kept by the corrected
   * model and silently dropped by the code as written.
   */
  lemma ConstructorRowDropped(row: Row, today: string)
    requires IsCandidate(row)
    requires "Data" in row && row["Data"] == "Constructor"
    ensures CleanData([row], today) == [ToSale(row, today)]
    ensures CleanDataAsWritten([row], today) == []
  {
    assert Filter([row], IsCandidate) == [row] by {
      assert [row][..0] == [];
    }
    assert Filter([row], AcceptedAsWritten) == [] by {
      ConstructorMonth(row);
      assert [row][..0] == [];
    }
    CleanDataKeepsCandidates([row], today);
  }
}
