/**
 * `processData` and the aggregations behind the dashboard: metrics, revenue
 * by category, revenue and quantity by month, and the top products.
 * Each `forEach` loop that fills a `Map` is a method proved equal to a
 * declarative grouping: one entry per key, in order of first occurrence,
 * holding the sum over the rows with that key.
 */
module Aggregation {

  import opened Wrappers
  import opened Assoc
  import opened JsText
  import opened Lists
  import opened StableSort
  import opened Months
  import opened Sales

  function Revenue(s: Sale): real { s.Receita }

  /** Quantities are summed as JavaScript numbers. */
  function Quantity(s: Sale): real { s.Quantidade as real }

  function CategoryOf(s: Sale): string { s.Categoria }
  function MonthOf(s: Sale): string { s.Mes }
  function ProductOf(s: Sale): string { s.Produto }

  /** The sum of `m` over the rows whose key is `k`. */
  function SumWhere(data: seq<Sale>, key: Sale -> string, k: string, m: Sale -> real): real {
    if data == [] then 0.0
    else SumWhere(data[..|data| - 1], key, k, m) + (if key(data[|data| - 1]) == k then m(data[|data| - 1]) else 0.0)
  }

  /** The distinct keys of the rows, in order of first occurrence: the key order of a `Map` filled row by row. */
  function Groups(data: seq<Sale>, key: Sale -> string): seq<string> {
    FirstOccurrences(MapSeq(data, key))
  }

  /** One entry per key, in order of first occurrence, with the sum of `m` over its rows. */
  function Grouped(data: seq<Sale>, key: Sale -> string, m: Sale -> real): Entries<string, real> {
    MapSeq(Groups(data, key), k => (k, SumWhere(data, key, k, m)))
  }

  // ---------------------------------------------------------------------------
  // One row more

  lemma GroupsStep(data: seq<Sale>, x: Sale, key: Sale -> string)
    ensures Groups(data + [x], key) ==
      if key(x) in Groups(data, key) then Groups(data, key) else Groups(data, key) + [key(x)]
  {
    var ks := MapSeq(data + [x], key);
    assert ks[..|ks| - 1] == MapSeq(data, key);
  }

  lemma SumWhereStep(data: seq<Sale>, x: Sale, key: Sale -> string, k: string, m: Sale -> real)
    ensures SumWhere(data + [x], key, k, m) == SumWhere(data, key, k, m) + (if key(x) == k then m(x) else 0.0)
  {
    assert (data + [x])[..|data|] == data;
  }

  /** A key no row carries sums to 0. */
  lemma {:induction false} SumWhereAbsent(data: seq<Sale>, key: Sale -> string, k: string, m: Sale -> real)
    requires k !in Groups(data, key)
    ensures SumWhere(data, key, k, m) == 0.0
  {
    if data != [] {
      var init := data[..|data| - 1];
      assert data == init + [data[|data| - 1]];
      GroupsStep(init, data[|data| - 1], key);
      SumWhereAbsent(init, key, k, m);
    }
  }

  lemma GroupsDistinct(data: seq<Sale>, key: Sale -> string)
    ensures Distinct(Groups(data, key))
    ensures forall k :: k in Groups(data, key) <==> k in MapSeq(data, key)
  {
    FirstOccurrencesMembers(MapSeq(data, key));
  }

  lemma GroupedKeys(data: seq<Sale>, key: Sale -> string, m: Sale -> real)
    ensures Keys(Grouped(data, key, m)) == Groups(data, key)
    ensures DistinctKeys(Grouped(data, key, m))
  {
    GroupsDistinct(data, key);
  }

  /** The sum read from the grouping at a key of the rows is that key's sum; at any other key, 0. */
  lemma GroupedRead(data: seq<Sale>, key: Sale -> string, m: Sale -> real, k: string)
    ensures Get(Grouped(data, key, m), k).GetOr(0.0) == SumWhere(data, key, k, m)
    ensures k in Groups(data, key) ==> Get(Grouped(data, key, m), k) == Some(SumWhere(data, key, k, m))
  {
    var g := Grouped(data, key, m);
    GroupedKeys(data, key, m);
    GetMissing(g, k);
    if k in Keys(g) {
      var i :| 0 <= i < |g| && Keys(g)[i] == k;
      GetDistinct(g, i);
    } else {
      SumWhereAbsent(data, key, k, m);
    }
  }

  /** What one turn of the `forEach` loop does to the grouping: `map.set(k, (map.get(k) ?? 0) + m(row))`. */
  lemma GroupedStep(data: seq<Sale>, x: Sale, key: Sale -> string, m: Sale -> real)
    ensures Grouped(data + [x], key, m) ==
      Set(Grouped(data, key, m), key(x), Get(Grouped(data, key, m), key(x)).GetOr(0.0) + m(x))
  {
    var g := Grouped(data, key, m);
    var v := Get(g, key(x)).GetOr(0.0) + m(x);
    var s := Set(g, key(x), v);
    var g' := Grouped(data + [x], key, m);
    GroupedKeys(data, key, m);
    GroupsStep(data, x, key);
    SetEffect(g, key(x), v);
    assert Keys(s) == Groups(data + [x], key);
    forall j | 0 <= j < |s| ensures s[j].1 == SumWhere(data + [x], key, s[j].0, m) {
      var k := s[j].0;
      SumWhereStep(data, x, key, k, m);
      GroupedRead(data, key, m, k);
      if k != key(x) {
        assert Get(g, k) == Some(s[j].1);
      }
    }
    assert |s| == |g'|;
    forall j | 0 <= j < |s| ensures s[j] == g'[j] {
      assert s[j].0 == Keys(s)[j];
    }
  }

  /** The `forEach` loop that fills a `Map` from keys to sums. */
  method SumByKey(data: seq<Sale>, key: Sale -> string, m: Sale -> real) returns (grouped: Entries<string, real>)
    ensures grouped == Grouped(data, key, m)
  {
    grouped := [];
    var i := 0;
    while i < |data|
      invariant 0 <= i <= |data|
      invariant grouped == Grouped(data[..i], key, m)
    {
      var row := data[i];
      var current := Get(grouped, key(row)).GetOr(0.0);
      grouped := Set(grouped, key(row), current + m(row));
      assert data[..i + 1] == data[..i] + [row];
      GroupedStep(data[..i], row, key, m);
      i := i + 1;
    }
    assert data[..i] == data;
  }

  // ---------------------------------------------------------------------------
  // The sums over the keys add up to the sum over the rows

  /** The sum, over the keys `ks`, of the per-key sums. */
  function SumOverKeys(ks: seq<string>, data: seq<Sale>, key: Sale -> string, m: Sale -> real): real {
    if ks == [] then 0.0
    else SumOverKeys(ks[..|ks| - 1], data, key, m) + SumWhere(data, key, ks[|ks| - 1], m)
  }

  lemma {:induction false} SumOverKeysStep(ks: seq<string>, data: seq<Sale>, x: Sale, key: Sale -> string, m: Sale -> real)
    requires Distinct(ks)
    ensures SumOverKeys(ks, data + [x], key, m) ==
      SumOverKeys(ks, data, key, m) + (if key(x) in ks then m(x) else 0.0)
  {
    if ks != [] {
      var init := ks[..|ks| - 1];
      assert Distinct(init);
      assert key(x) in ks <==> key(x) in init || key(x) == ks[|ks| - 1] by {
        assert ks == init + [ks[|ks| - 1]];
      }
      if key(x) == ks[|ks| - 1] {
        assert key(x) !in init;
      }
      SumOverKeysStep(init, data, x, key, m);
      SumWhereStep(data, x, key, ks[|ks| - 1], m);
    }
  }

  /** Over distinct keys that include every row's key, the per-key sums add up to the sum over all rows. */
  lemma {:induction false} Partition(ks: seq<string>, data: seq<Sale>, key: Sale -> string, m: Sale -> real)
    requires Distinct(ks)
    requires forall i :: 0 <= i < |data| ==> key(data[i]) in ks
    ensures SumOverKeys(ks, data, key, m) == SumOf(data, m)
  {
    if data == [] {
      SumOverKeysEmpty(ks, key, m);
    } else {
      var init, x := data[..|data| - 1], data[|data| - 1];
      assert data == init + [x];
      Partition(ks, init, key, m);
      SumOverKeysStep(ks, init, x, key, m);
    }
  }

  lemma {:induction false} SumOverKeysEmpty(ks: seq<string>, key: Sale -> string, m: Sale -> real)
    ensures SumOverKeys(ks, [], key, m) == 0.0
  {
    if ks != [] {
      SumOverKeysEmpty(ks[..|ks| - 1], key, m);
    }
  }

  /** `Array.from(map.values()).reduce((a, b) => a + b, 0)`. */
  function SumValues(g: Entries<string, real>): real {
    if g == [] then 0.0 else SumValues(g[..|g| - 1]) + g[|g| - 1].1
  }

  lemma {:induction false} SumValuesOfKeys(ks: seq<string>, data: seq<Sale>, key: Sale -> string, m: Sale -> real)
    ensures SumValues(MapSeq(ks, k => (k, SumWhere(data, key, k, m)))) == SumOverKeys(ks, data, key, m)
  {
    if ks != [] {
      var init := ks[..|ks| - 1];
      var g := MapSeq(ks, k => (k, SumWhere(data, key, k, m)));
      assert g[..|g| - 1] == MapSeq(init, k => (k, SumWhere(data, key, k, m)));
      SumValuesOfKeys(init, data, key, m);
    }
  }

  /** The values of the grouping add up to the sum over all rows. */
  lemma GroupedTotal(data: seq<Sale>, key: Sale -> string, m: Sale -> real)
    ensures SumValues(Grouped(data, key, m)) == SumOf(data, m)
  {
    GroupsDistinct(data, key);
    forall i | 0 <= i < |data| ensures key(data[i]) in Groups(data, key) {
      assert key(data[i]) == MapSeq(data, key)[i];
    }
    SumValuesOfKeys(Groups(data, key), data, key, m);
    Partition(Groups(data, key), data, key, m);
  }

  // ---------------------------------------------------------------------------
  // calculateMetrics

  datatype Metrics = Metrics(receita_total: real, pedidos_totais: nat, ticket_medio: real, quantidade_total: real)

  /**
   * `calculateMetrics`: totals by `reduce`, and the average ticket, 0 without
   * orders. The average ticket times the number of orders is the revenue.
   */
  function CalculateMetrics(data: seq<Sale>): (m: Metrics)
    ensures m.pedidos_totais == |data|
    ensures |data| > 0 ==> m.ticket_medio * |data| as real == m.receita_total
    ensures data == [] ==> m == Metrics(0.0, 0, 0.0, 0.0)
  {
    var receita_total := SumOf(data, Revenue);
    var pedidos_totais := |data|;
    Metrics(
      receita_total,
      pedidos_totais,
      if pedidos_totais > 0 then receita_total / pedidos_totais as real else 0.0,
      SumOf(data, Quantity))
  }

  /** The revenue total is the sum, over the categories, of their revenue, and likewise for the months and the products. */
  lemma MetricsByGroup(data: seq<Sale>, key: Sale -> string)
    ensures CalculateMetrics(data).receita_total == SumValues(Grouped(data, key, Revenue))
    ensures CalculateMetrics(data).quantidade_total == SumValues(Grouped(data, key, Quantity))
  {
    GroupedTotal(data, key, Revenue);
    GroupedTotal(data, key, Quantity);
  }

  // ---------------------------------------------------------------------------
  // calculateSalesByCategory

  datatype SalesByCategory = SalesByCategory(Categoria: string, valor: real, percentual: real)

  /** `Math.round(x)`: the nearest integer, halves rounded up. */
  function Round(x: real): (n: int)
    ensures x - 0.5 < n as real <= x + 0.5
  {
    (x + 0.5).Floor
  }

  /** `total > 0 ? Math.round((valor / total) * 1000) / 10 : 0`: the share in percent, to one decimal. */
  function Percentual(valor: real, total: real): real {
    if total > 0.0 then Round(valor / total * 1000.0) as real / 10.0 else 0.0
  }

  /** The share is the exact percentage to within half a tenth, and lies in 0..100 for a part of a positive total. */
  lemma PercentualBounds(valor: real, total: real)
    ensures total > 0.0 ==> valor / total * 100.0 - 0.05 < Percentual(valor, total) <= valor / total * 100.0 + 0.05
    ensures total > 0.0 && 0.0 <= valor <= total ==> 0.0 <= Percentual(valor, total) <= 100.0
    ensures total <= 0.0 ==> Percentual(valor, total) == 0.0
  {
    if total > 0.0 && 0.0 <= valor <= total {
      assert 0.0 <= valor / total <= 1.0 by {
        assert valor / total * total == valor;
      }
    }
  }

  function CategoryShare(e: (string, real), total: real): SalesByCategory {
    SalesByCategory(e.0, e.1, Percentual(e.1, total))
  }

  function ByValor(c: SalesByCategory): SortKey { Num(c.valor) }

  /** The categories with their revenue and share, in order of first occurrence, before the sort. */
  function CategoryShares(data: seq<Sale>): seq<SalesByCategory> {
    var total := SumOf(data, Revenue);
    MapSeq(Groups(data, CategoryOf), k => SalesByCategory(k, SumWhere(data, CategoryOf, k, Revenue), Percentual(SumWhere(data, CategoryOf, k, Revenue), total)))
  }

  /** The result of `calculateSalesByCategory`: the shares sorted by revenue, largest first, ties in order of first occurrence. */
  function SalesByCategoryOf(data: seq<Sale>): seq<SalesByCategory> {
    SortBy(CategoryShares(data), ByValor, Desc)
  }

  /** `calculateSalesByCategory`. */
  method CalculateSalesByCategory(data: seq<Sale>) returns (r: seq<SalesByCategory>)
    ensures r == SalesByCategoryOf(data)
  {
    var grouped := SumByKey(data, CategoryOf, Revenue);
    var total := SumValues(grouped);
    GroupedTotal(data, CategoryOf, Revenue);
    var shares := MapSeq(grouped, e => CategoryShare(e, total));
    assert shares == CategoryShares(data);
    r := SortBy(shares, ByValor, Desc);
  }

  function CategoryName(c: SalesByCategory): string { c.Categoria }
  function Valor(c: SalesByCategory): real { c.valor }

  /** A sum over one record per key is the sum over the keys of the per-key sums. */
  lemma {:induction false} SumOfMapKeys<T>(ks: seq<string>, data: seq<Sale>, key: Sale -> string, m: Sale -> real, f: string -> T, v: T -> real)
    requires forall k :: v(f(k)) == SumWhere(data, key, k, m)
    ensures SumOf(MapSeq(ks, f), v) == SumOverKeys(ks, data, key, m)
  {
    if ks != [] {
      var init := ks[..|ks| - 1];
      assert MapSeq(ks, f)[..|ks| - 1] == MapSeq(init, f);
      SumOfMapKeys(init, data, key, m, f, v);
    }
  }

  /**
   * Each category of the rows appears exactly once; each entry holds the
   * category's revenue and its share of the total revenue.
   */
  lemma SalesByCategoryEntries(data: seq<Sale>)
    ensures multiset(MapSeq(SalesByCategoryOf(data), CategoryName)) == multiset(Groups(data, CategoryOf))
    ensures forall i :: 0 <= i < |SalesByCategoryOf(data)| ==>
      var c := SalesByCategoryOf(data)[i];
      c.valor == SumWhere(data, CategoryOf, c.Categoria, Revenue) &&
      c.percentual == Percentual(c.valor, SumOf(data, Revenue))
  {
    var shares := CategoryShares(data);
    var r := SalesByCategoryOf(data);
    SortByCorrect(shares, ByValor, Desc);
    SortByMap(shares, ByValor, Desc, CategoryName);
    assert MapSeq(shares, CategoryName) == Groups(data, CategoryOf);
    forall i | 0 <= i < |r|
      ensures r[i].valor == SumWhere(data, CategoryOf, r[i].Categoria, Revenue)
      ensures r[i].percentual == Percentual(r[i].valor, SumOf(data, Revenue))
    {
      assert r[i] in multiset(shares);
    }
  }

  /** Largest revenue first; categories with equal revenue keep their order of first occurrence. */
  lemma SalesByCategoryOrder(data: seq<Sale>)
    ensures Sorted(SalesByCategoryOf(data), ByValor, Desc)
    ensures forall k :: WithKey(SalesByCategoryOf(data), ByValor, k) == WithKey(CategoryShares(data), ByValor, k)
  {
    SortByCorrect(CategoryShares(data), ByValor, Desc);
  }

  /** The category revenues add up to the total revenue. */
  lemma SalesByCategoryTotal(data: seq<Sale>)
    ensures SumOf(SalesByCategoryOf(data), Valor) == CalculateMetrics(data).receita_total
  {
    var total := SumOf(data, Revenue);
    var f := k => SalesByCategory(k, SumWhere(data, CategoryOf, k, Revenue), Percentual(SumWhere(data, CategoryOf, k, Revenue), total));
    SortBySum(CategoryShares(data), ByValor, Desc, Valor);
    assert CategoryShares(data) == MapSeq(Groups(data, CategoryOf), f);
    SumOfMapKeys(Groups(data, CategoryOf), data, CategoryOf, Revenue, f, Valor);
    GroupedTotal(data, CategoryOf, Revenue);
    SumValuesOfKeys(Groups(data, CategoryOf), data, CategoryOf, Revenue);
  }

  function Share(c: SalesByCategory): real { c.percentual }

  /** Shares rounded to a tenth of a percent of `total` add up to the exact percentage of the values' sum, give or take half a tenth per entry. */
  lemma {:induction false} ShareSumBounds(rs: seq<SalesByCategory>, total: real)
    requires total > 0.0
    requires forall i :: 0 <= i < |rs| ==> rs[i].percentual == Percentual(rs[i].valor, total)
    ensures SumOf(rs, Valor) / total * 100.0 - 0.05 * |rs| as real <= SumOf(rs, Share)
    ensures SumOf(rs, Share) <= SumOf(rs, Valor) / total * 100.0 + 0.05 * |rs| as real
  {
    if rs != [] {
      var init, last := rs[..|rs| - 1], rs[|rs| - 1];
      ShareSumBounds(init, total);
      PercentualBounds(last.valor, total);
      assert (SumOf(init, Valor) + last.valor) / total * 100.0 ==
        SumOf(init, Valor) / total * 100.0 + last.valor / total * 100.0;
    }
  }

  /** Without a positive total every share is 0, and so is their sum. */
  lemma {:induction false} ShareSumZero(rs: seq<SalesByCategory>, total: real)
    requires total <= 0.0
    requires forall i :: 0 <= i < |rs| ==> rs[i].percentual == Percentual(rs[i].valor, total)
    ensures SumOf(rs, Share) == 0.0
  {
    if rs != [] {
      ShareSumZero(rs[..|rs| - 1], total);
    }
  }

  lemma WholeInPercent(total: real)
    requires total > 0.0
    ensures total / total * 100.0 == 100.0
  {
  }

  /**
   * With a positive revenue total the category shares add up to 100 percent,
   * give or take the rounding: at most half a tenth of a percent per category.
   * Without one they add up to 0.
   */
  lemma SalesByCategoryShareSum(data: seq<Sale>)
    ensures var total := CalculateMetrics(data).receita_total;
      var n := |SalesByCategoryOf(data)| as real;
      total > 0.0 ==> 100.0 - 0.05 * n <= SumOf(SalesByCategoryOf(data), Share) <= 100.0 + 0.05 * n
    ensures CalculateMetrics(data).receita_total <= 0.0 ==> SumOf(SalesByCategoryOf(data), Share) == 0.0
  {
    var rs := SalesByCategoryOf(data);
    var total := CalculateMetrics(data).receita_total;
    SalesByCategoryEntries(data);
    SalesByCategoryTotal(data);
    if total > 0.0 {
      ShareSumBounds(rs, total);
      assert SumOf(rs, Valor) == total;
      WholeInPercent(total);
    } else {
      ShareSumZero(rs, total);
    }
  }

  // ---------------------------------------------------------------------------
  // getUniqueMonths, calculateSalesByMonth, calculateQuantityByMonth

  /** `MESES_ORDEM.filter((mes) => present.has(mes))`. */
  function MonthsIn(present: seq<string>): seq<string> {
    Filter(MonthCodes, mes => mes in present)
  }

  /** `getUniqueMonths`. */
  function GetUniqueMonths(data: seq<Sale>): (r: seq<string>)
    ensures |r| <= 12
    ensures forall i :: 0 <= i < |r| ==> IsMonthCode(r[i])
  {
    FilterMembers(MonthCodes, mes => mes in MapSeq(data, MonthOf));
    MonthsIn(MapSeq(data, MonthOf))
  }

  lemma MonthsInSame(a: seq<string>, b: seq<string>)
    requires forall x :: x in a <==> x in b
    ensures MonthsIn(a) == MonthsIn(b)
  {
    FilterSame(MonthCodes, mes => mes in a, mes => mes in b);
  }

  /**
   * The months listed are exactly the month codes some row carries, each once,
   * in calendar order.
   */
  lemma UniqueMonthsCorrect(data: seq<Sale>)
    ensures forall mes :: mes in GetUniqueMonths(data) <==> IsMonthCode(mes) && mes in MapSeq(data, MonthOf)
    ensures InOrderOf(GetUniqueMonths(data), MonthCodes)
    ensures Distinct(GetUniqueMonths(data))
    ensures |GetUniqueMonths(data)| <= 12
  {
    var present := MapSeq(data, MonthOf);
    FilterMembers(MonthCodes, mes => mes in present);
    MonthCodesDistinct();
    FilterKeepsOrder(MonthCodes, mes => mes in present);
    var u := GetUniqueMonths(data);
    forall i, j | 0 <= i < j < |u| ensures u[i] != u[j] {
      assert IndexIn(MonthCodes, u[i]) < IndexIn(MonthCodes, u[j]);
    }
  }

  datatype SalesByMonth = SalesByMonth(Mes: string, valor: real)
  datatype QuantityByMonth = QuantityByMonth(Mes: string, quantidade: real)

  /** The result of `calculateSalesByMonth`: each month some row carries, in calendar order, with its revenue. */
  function SalesByMonthOf(data: seq<Sale>): seq<SalesByMonth> {
    MapSeq(GetUniqueMonths(data), mes => SalesByMonth(mes, SumWhere(data, MonthOf, mes, Revenue)))
  }

  /** The result of `calculateQuantityByMonth`: each month some row carries, in calendar order, with its quantity. */
  function QuantityByMonthOf(data: seq<Sale>): seq<QuantityByMonth> {
    MapSeq(GetUniqueMonths(data), mes => QuantityByMonth(mes, SumWhere(data, MonthOf, mes, Quantity)))
  }

  /** `MESES_ORDEM.filter((mes) => grouped.has(mes))` is the list of months the rows carry. */
  lemma GroupedMonths(data: seq<Sale>, m: Sale -> real)
    ensures MonthsIn(Keys(Grouped(data, MonthOf, m))) == GetUniqueMonths(data)
  {
    GroupedKeys(data, MonthOf, m);
    GroupsDistinct(data, MonthOf);
    MonthsInSame(Keys(Grouped(data, MonthOf, m)), MapSeq(data, MonthOf));
  }

  /** `calculateSalesByMonth`. */
  method CalculateSalesByMonth(data: seq<Sale>) returns (r: seq<SalesByMonth>)
    ensures r == SalesByMonthOf(data)
  {
    var grouped := SumByKey(data, MonthOf, Revenue);
    var months := MonthsIn(Keys(grouped));
    r := MapSeq(months, mes => SalesByMonth(mes, Get(grouped, mes).GetOr(0.0)));
    GroupedMonths(data, Revenue);
    forall i | 0 <= i < |r| ensures r[i] == SalesByMonthOf(data)[i] {
      GroupedRead(data, MonthOf, Revenue, months[i]);
    }
  }

  /** `calculateQuantityByMonth`. */
  method CalculateQuantityByMonth(data: seq<Sale>) returns (r: seq<QuantityByMonth>)
    ensures r == QuantityByMonthOf(data)
  {
    var grouped := SumByKey(data, MonthOf, Quantity);
    var months := MonthsIn(Keys(grouped));
    r := MapSeq(months, mes => QuantityByMonth(mes, Get(grouped, mes).GetOr(0.0)));
    GroupedMonths(data, Quantity);
    forall i | 0 <= i < |r| ensures r[i] == QuantityByMonthOf(data)[i] {
      GroupedRead(data, MonthOf, Quantity, months[i]);
    }
  }

  function MonthName(s: SalesByMonth): string { s.Mes }
  function MonthValor(s: SalesByMonth): real { s.valor }
  function MonthQuantity(q: QuantityByMonth): real { q.quantidade }

  /** Over months that are all month codes, the monthly sums of `m` add up to its sum over all rows. */
  lemma MonthlyTotal(data: seq<Sale>, m: Sale -> real)
    requires forall i :: 0 <= i < |data| ==> IsMonthCode(data[i].Mes)
    ensures SumOverKeys(GetUniqueMonths(data), data, MonthOf, m) == SumOf(data, m)
  {
    UniqueMonthsCorrect(data);
    forall i | 0 <= i < |data| ensures MonthOf(data[i]) in GetUniqueMonths(data) {
      assert MonthOf(data[i]) == MapSeq(data, MonthOf)[i];
    }
    Partition(GetUniqueMonths(data), data, MonthOf, m);
  }

  /**
   * Each entry holds its month's revenue, in calendar order, one per month the
   * rows carry; when every row has a month code, the entries add up to the
   * total revenue.
   */
  lemma SalesByMonthCorrect(data: seq<Sale>)
    ensures forall i :: 0 <= i < |SalesByMonthOf(data)| ==>
      SalesByMonthOf(data)[i].valor == SumWhere(data, MonthOf, SalesByMonthOf(data)[i].Mes, Revenue)
    ensures MapSeq(SalesByMonthOf(data), MonthName) == GetUniqueMonths(data)
    ensures (forall i :: 0 <= i < |data| ==> IsMonthCode(data[i].Mes)) ==>
      SumOf(SalesByMonthOf(data), MonthValor) == CalculateMetrics(data).receita_total
  {
    var f := mes => SalesByMonth(mes, SumWhere(data, MonthOf, mes, Revenue));
    SumOfMapKeys(GetUniqueMonths(data), data, MonthOf, Revenue, f, MonthValor);
    if forall i :: 0 <= i < |data| ==> IsMonthCode(data[i].Mes) {
      MonthlyTotal(data, Revenue);
    }
  }

  /** The same for quantities: monthly quantities in calendar order, adding up to the total quantity. */
  lemma QuantityByMonthCorrect(data: seq<Sale>)
    ensures forall i :: 0 <= i < |QuantityByMonthOf(data)| ==>
      QuantityByMonthOf(data)[i].quantidade == SumWhere(data, MonthOf, QuantityByMonthOf(data)[i].Mes, Quantity)
    ensures |QuantityByMonthOf(data)| == |GetUniqueMonths(data)|
    ensures forall i :: 0 <= i < |QuantityByMonthOf(data)| ==> QuantityByMonthOf(data)[i].Mes == GetUniqueMonths(data)[i]
    ensures (forall i :: 0 <= i < |data| ==> IsMonthCode(data[i].Mes)) ==>
      SumOf(QuantityByMonthOf(data), MonthQuantity) == CalculateMetrics(data).quantidade_total
  {
    var f := mes => QuantityByMonth(mes, SumWhere(data, MonthOf, mes, Quantity));
    SumOfMapKeys(GetUniqueMonths(data), data, MonthOf, Quantity, f, MonthQuantity);
    if forall i :: 0 <= i < |data| ==> IsMonthCode(data[i].Mes) {
      MonthlyTotal(data, Quantity);
    }
  }

  // ---------------------------------------------------------------------------
  // calculateTopProducts

  datatype ProductInfo = ProductInfo(categoria: string, quantidade: real, receita: real)

  datatype TopProduct = TopProduct(Produto: string, Categoria: string, Quantidade: real, Receita: real)

  /**
   * The category of the last row of product `p`: each row of a product
   * overwrites the category held for it.
   */
  function LastCategory(data: seq<Sale>, p: string): string {
    if data == [] then ""
    else if data[|data| - 1].Produto == p then data[|data| - 1].Categoria
    else LastCategory(data[..|data| - 1], p)
  }

  /** Row `i` is the last row of product `p`. */
  predicate LastRowOf(data: seq<Sale>, p: string, i: int) {
    0 <= i < |data| && data[i].Produto == p && forall j :: i < j < |data| ==> data[j].Produto != p
  }

  /** A product that occurs takes the category of its last row. */
  lemma {:induction false} LastCategoryCorrect(data: seq<Sale>, p: string)
    requires exists k :: 0 <= k < |data| && data[k].Produto == p
    ensures exists i :: LastRowOf(data, p, i) && data[i].Categoria == LastCategory(data, p)
  {
    var n := |data| - 1;
    if data[n].Produto == p {
      assert LastRowOf(data, p, n);
    } else {
      var init := data[..n];
      var k :| 0 <= k < |data| && data[k].Produto == p;
      assert k < n && init[k] == data[k];
      LastCategoryCorrect(init, p);
      var i :| LastRowOf(init, p, i) && init[i].Categoria == LastCategory(init, p);
      LastRowOfExtended(data, p, i);
    }
  }

  lemma LastRowOfExtended(data: seq<Sale>, p: string, i: int)
    requires data != [] && data[|data| - 1].Produto != p
    requires LastRowOf(data[..|data| - 1], p, i)
    ensures LastRowOf(data, p, i) && data[i] == data[..|data| - 1][i]
  {
    var init := data[..|data| - 1];
    forall j | i < j < |data|
      ensures data[j].Produto != p
    {
      if j < |init| {
        assert data[j] == init[j];
      }
    }
  }

  /** What the `Map` holds for product `p` once every row is in. */
  function ProductInfoOf(data: seq<Sale>, p: string): ProductInfo {
    ProductInfo(LastCategory(data, p), SumWhere(data, ProductOf, p, Quantity), SumWhere(data, ProductOf, p, Revenue))
  }

  /** The `Map` from products to their totals, in order of first occurrence. */
  function ProductTotals(data: seq<Sale>): Entries<string, ProductInfo> {
    MapSeq(Groups(data, ProductOf), p => (p, ProductInfoOf(data, p)))
  }

  /** The entry one row makes of what the `Map` held for its product: the sums grow, the category is replaced. */
  function Accumulate(current: Option<ProductInfo>, row: Sale): ProductInfo {
    match current
    case Some(c) => ProductInfo(row.Categoria, c.quantidade + Quantity(row), c.receita + Revenue(row))
    case None => ProductInfo(row.Categoria, Quantity(row), Revenue(row))
  }

  lemma LastCategoryStep(data: seq<Sale>, x: Sale, p: string)
    ensures LastCategory(data + [x], p) == if x.Produto == p then x.Categoria else LastCategory(data, p)
  {
    assert (data + [x])[..|data|] == data;
  }

  lemma ProductTotalsKeys(data: seq<Sale>)
    ensures Keys(ProductTotals(data)) == Groups(data, ProductOf)
    ensures DistinctKeys(ProductTotals(data))
  {
    GroupsDistinct(data, ProductOf);
  }

  /** The `Map` holds each product's totals, and nothing for a product no row carries. */
  lemma ProductTotalsRead(data: seq<Sale>, p: string)
    ensures Get(ProductTotals(data), p) == if p in Groups(data, ProductOf) then Some(ProductInfoOf(data, p)) else None
  {
    var g := ProductTotals(data);
    ProductTotalsKeys(data);
    GetMissing(g, p);
    if p in Keys(g) {
      var i :| 0 <= i < |g| && Keys(g)[i] == p;
      GetDistinct(g, i);
    }
  }

  /** One row more changes only its own product's totals, as `Accumulate` says. */
  lemma ProductInfoStep(data: seq<Sale>, x: Sale, p: string)
    ensures p == x.Produto ==> ProductInfoOf(data + [x], p) == Accumulate(Get(ProductTotals(data), p), x)
    ensures p != x.Produto ==> ProductInfoOf(data + [x], p) == ProductInfoOf(data, p)
  {
    SumWhereStep(data, x, ProductOf, p, Quantity);
    SumWhereStep(data, x, ProductOf, p, Revenue);
    LastCategoryStep(data, x, p);
    ProductTotalsRead(data, p);
    if p == x.Produto && p !in Groups(data, ProductOf) {
      SumWhereAbsent(data, ProductOf, p, Quantity);
      SumWhereAbsent(data, ProductOf, p, Revenue);
    }
  }

  /** What one turn of the `forEach` loop does to the `Map`. */
  lemma ProductTotalsStep(data: seq<Sale>, x: Sale)
    ensures ProductTotals(data + [x]) == Set(ProductTotals(data), x.Produto, Accumulate(Get(ProductTotals(data), x.Produto), x))
  {
    var g := ProductTotals(data);
    var v := Accumulate(Get(g, x.Produto), x);
    var s := Set(g, x.Produto, v);
    var g' := ProductTotals(data + [x]);
    ProductTotalsKeys(data);
    GroupsStep(data, x, ProductOf);
    SetEffect(g, x.Produto, v);
    assert Keys(s) == Groups(data + [x], ProductOf);
    forall j | 0 <= j < |s| ensures s[j].1 == ProductInfoOf(data + [x], s[j].0) {
      var p := s[j].0;
      ProductInfoStep(data, x, p);
      if p != x.Produto {
        ProductTotalsRead(data, p);
        assert Get(g, p) == Some(s[j].1);
      }
    }
    assert |s| == |g'|;
    forall j | 0 <= j < |s| ensures s[j] == g'[j] {
      assert s[j].0 == Keys(s)[j];
    }
  }

  lemma ProductTotalsPrefix(data: seq<Sale>, i: nat)
    requires i < |data|
    ensures ProductTotals(data[..i + 1]) ==
      Set(ProductTotals(data[..i]), data[i].Produto, Accumulate(Get(ProductTotals(data[..i]), data[i].Produto), data[i]))
  {
    assert data[..i + 1] == data[..i] + [data[i]];
    ProductTotalsStep(data[..i], data[i]);
  }

  /** The `forEach` loop of `calculateTopProducts`. */
  method ProductTotalsLoop(data: seq<Sale>) returns (grouped: Entries<string, ProductInfo>)
    ensures grouped == ProductTotals(data)
  {
    grouped := [];
    var i := 0;
    while i < |data|
      invariant 0 <= i <= |data|
      invariant grouped == ProductTotals(data[..i])
    {
      var row := data[i];
      var current := Get(grouped, row.Produto);
      ghost var before := grouped;
      if current.Some? {
        grouped := Set(grouped, row.Produto, ProductInfo(row.Categoria, current.value.quantidade + Quantity(row), current.value.receita + Revenue(row)));
      } else {
        grouped := Set(grouped, row.Produto, ProductInfo(row.Categoria, Quantity(row), Revenue(row)));
      }
      assert grouped == Set(before, row.Produto, Accumulate(current, row));
      ProductTotalsPrefix(data, i);
      i := i + 1;
    }
    assert data[..i] == data;
  }

  function ToTopProduct(e: (string, ProductInfo)): TopProduct {
    TopProduct(e.0, e.1.categoria, e.1.quantidade, e.1.receita)
  }

  function ByReceita(t: TopProduct): SortKey { Num(t.Receita) }
  function ProductName(t: TopProduct): string { t.Produto }

  /** Every product, sorted by revenue, largest first, ties in order of first occurrence. */
  function RankedProducts(data: seq<Sale>): seq<TopProduct> {
    SortBy(MapSeq(ProductTotals(data), ToTopProduct), ByReceita, Desc)
  }

  /** The result of `calculateTopProducts(data, limit)`. */
  function TopProductsOf(data: seq<Sale>, limit: int): seq<TopProduct> {
    SliceTo(RankedProducts(data), limit)
  }

  /** `calculateTopProducts`. */
  method CalculateTopProducts(data: seq<Sale>, limit: int) returns (r: seq<TopProduct>)
    ensures r == TopProductsOf(data, limit)
  {
    var grouped := ProductTotalsLoop(data);
    r := SliceTo(SortBy(MapSeq(grouped, ToTopProduct), ByReceita, Desc), limit);
  }

  /** The ranking lists every product once, each with its totals and the category of its last row. */
  lemma RankedProductsEntries(data: seq<Sale>)
    ensures multiset(MapSeq(RankedProducts(data), ProductName)) == multiset(Groups(data, ProductOf))
    ensures |RankedProducts(data)| == |Groups(data, ProductOf)|
    ensures forall i :: 0 <= i < |RankedProducts(data)| ==>
      var t := RankedProducts(data)[i];
      t.Receita == SumWhere(data, ProductOf, t.Produto, Revenue) &&
      t.Quantidade == SumWhere(data, ProductOf, t.Produto, Quantity) &&
      t.Categoria == LastCategory(data, t.Produto)
  {
    var unsorted := MapSeq(ProductTotals(data), ToTopProduct);
    var r := RankedProducts(data);
    SortByCorrect(unsorted, ByReceita, Desc);
    SortByMap(unsorted, ByReceita, Desc, ProductName);
    SortByLength(unsorted, ByReceita, Desc);
    assert MapSeq(unsorted, ProductName) == Groups(data, ProductOf);
    forall i | 0 <= i < |r|
      ensures r[i].Receita == SumWhere(data, ProductOf, r[i].Produto, Revenue)
      ensures r[i].Quantidade == SumWhere(data, ProductOf, r[i].Produto, Quantity)
      ensures r[i].Categoria == LastCategory(data, r[i].Produto)
    {
      assert r[i] in multiset(unsorted);
    }
  }

  /** No product is listed twice, so the ranking has one entry per product. */
  lemma RankedProductsDistinct(data: seq<Sale>)
    ensures Distinct(MapSeq(RankedProducts(data), ProductName))
  {
    RankedProductsEntries(data);
    GroupsDistinct(data, ProductOf);
    DistinctPermutation(Groups(data, ProductOf), MapSeq(RankedProducts(data), ProductName));
  }

  /**
   * `calculateTopProducts(data, limit)` with `limit >= 0`: the first `limit`
   * products of the ranking, in order of revenue, and no product left out
   * earns more than one listed.
   */
  lemma TopProductsCorrect(data: seq<Sale>, limit: int)
    requires 0 <= limit
    ensures |TopProductsOf(data, limit)| == if limit < |Groups(data, ProductOf)| then limit else |Groups(data, ProductOf)|
    ensures TopProductsOf(data, limit) == RankedProducts(data)[..|TopProductsOf(data, limit)|]
    ensures Sorted(TopProductsOf(data, limit), ByReceita, Desc)
    ensures forall i, j :: 0 <= i < |TopProductsOf(data, limit)| <= j < |RankedProducts(data)| ==>
      RankedProducts(data)[j].Receita <= TopProductsOf(data, limit)[i].Receita
  {
    var ranked := RankedProducts(data);
    var r := TopProductsOf(data, limit);
    RankedProductsEntries(data);
    SortByCorrect(MapSeq(ProductTotals(data), ToTopProduct), ByReceita, Desc);
    forall i, j | 0 <= i < |r| <= j < |ranked| ensures ranked[j].Receita <= r[i].Receita {
      assert !Precedes(Desc, ByReceita(ranked[j]), ByReceita(ranked[i]));
    }
  }

  // ---------------------------------------------------------------------------
  // getUniqueCategories

  function TextKey(s: string): SortKey { SortKey.Text(s) }

  /** `Array.from(new Set(categories)).sort()`: the default sort compares strings. */
  function GetUniqueCategories(data: seq<Sale>): (r: seq<string>)
    ensures |r| <= |data|
  {
    FirstOccurrencesMembers(MapSeq(data, CategoryOf));
    SortByCorrect(Groups(data, CategoryOf), TextKey, Asc);
    assert |SortBy(Groups(data, CategoryOf), TextKey, Asc)| == |Groups(data, CategoryOf)| by {
      assert |multiset(SortBy(Groups(data, CategoryOf), TextKey, Asc))| == |multiset(Groups(data, CategoryOf))|;
    }
    SortBy(Groups(data, CategoryOf), TextKey, Asc)
  }

  /** The categories of the rows, each once, in strictly increasing order. */
  lemma UniqueCategoriesCorrect(data: seq<Sale>)
    ensures forall c :: c in GetUniqueCategories(data) <==> c in MapSeq(data, CategoryOf)
    ensures forall i, j :: 0 <= i < j < |GetUniqueCategories(data)| ==>
      StrLess(GetUniqueCategories(data)[i], GetUniqueCategories(data)[j])
  {
    var r := GetUniqueCategories(data);
    SortByCorrect(Groups(data, CategoryOf), TextKey, Asc);
    GroupsDistinct(data, CategoryOf);
    DistinctPermutation(Groups(data, CategoryOf), r);
    forall c ensures c in r <==> c in Groups(data, CategoryOf) {
      assert c in r <==> c in multiset(r);
    }
    forall i, j | 0 <= i < j < |r| ensures StrLess(r[i], r[j]) {
      assert !KeyLess(TextKey(r[j]), TextKey(r[i]));
      KeyLessTotal(TextKey(r[i]), TextKey(r[j]));
    }
  }

  // ---------------------------------------------------------------------------
  // processData

  datatype DashboardData = DashboardData(
    metrics: Metrics,
    sales_by_category: seq<SalesByCategory>,
    sales_by_month: seq<SalesByMonth>,
    quantity_by_month: seq<QuantityByMonth>,
    top_products: seq<TopProduct>,
    raw_data: seq<Sale>)

  /** How many products `processData` ranks. */
  const TopProductsLimit := 10

  /** Everything the dashboard shows about `data`. */
  function ProcessDataOf(data: seq<Sale>): DashboardData {
    DashboardData(CalculateMetrics(data), SalesByCategoryOf(data), SalesByMonthOf(data),
      QuantityByMonthOf(data), TopProductsOf(data, TopProductsLimit), data)
  }

  /** `processData`. */
  method ProcessData(rawData: seq<Sale>) returns (d: DashboardData)
    ensures d == ProcessDataOf(rawData)
  {
    var metrics := CalculateMetrics(rawData);
    var salesByCategory := CalculateSalesByCategory(rawData);
    var salesByMonth := CalculateSalesByMonth(rawData);
    var quantityByMonth := CalculateQuantityByMonth(rawData);
    var topProducts := CalculateTopProducts(rawData, TopProductsLimit);
    d := DashboardData(metrics, salesByCategory, salesByMonth, quantityByMonth, topProducts, rawData);
  }

  /**
   * The dashboard's figures agree with each other: the categories add up to
   * the total revenue, the months do too when every row has a month code,
   * and at most ten products are ranked.
   */
  lemma ProcessDataConsistent(data: seq<Sale>)
    ensures SumOf(ProcessDataOf(data).sales_by_category, Valor) == ProcessDataOf(data).metrics.receita_total
    ensures (forall i :: 0 <= i < |data| ==> IsMonthCode(data[i].Mes)) ==>
      SumOf(ProcessDataOf(data).sales_by_month, MonthValor) == ProcessDataOf(data).metrics.receita_total
    ensures |ProcessDataOf(data).top_products| <= TopProductsLimit
    ensures ProcessDataOf(data).metrics.pedidos_totais == |ProcessDataOf(data).raw_data|
  {
    SalesByCategoryTotal(data);
    SalesByMonthCorrect(data);
    TopProductsCorrect(data, TopProductsLimit);
  }
}
