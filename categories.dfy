/**
 * Category normalisation (`normalizarCategoria`): trim, upper-case, then the
 * synonym table; a value missing from the table passes through unchanged.
 */
module Categories {

  import opened Wrappers
  import opened JsText
  import opened Assoc

  /** The object literal `mapa`: spellings of the three canonical categories. */
  const CategoryNames: Entries<string, string> := [
    ("ASSINATURA", "ASSINATURAS"),
    ("ASSINATURAS", "ASSINATURAS"),
    ("SERVIÇO", "SERVICOS"),
    ("SERVIÇOS", "SERVICOS"),
    ("SERVICOS", "SERVICOS"),
    ("PRODUTO", "PRODUTOS"),
    ("PRODUTOS", "PRODUTOS")
  ]

  /** The canonical categories the table maps onto. */
  predicate IsCanonical(c: string) {
    c == "ASSINATURAS" || c == "SERVICOS" || c == "PRODUTOS"
  }

  /** The lookup key: `categoria.trim().toUpperCase()`. */
  function CategoryKey(categoria: string): string {
    ToUpper(Trim(categoria))
  }

  /**
   * `normalizarCategoria`: the table's value for the key, or the key itself.
   * Every value in the table is a non-empty string, so `||` only falls back when
   * the key is missing.
   */
  function NormalizeCategory(categoria: string): (r: string)
    ensures IsCanonical(r) || r == CategoryKey(categoria)
  {
    var normalized := CategoryKey(categoria);
    match Get(CategoryNames, normalized)
    case Some(canonical) =>
      GetFound(CategoryNames, normalized);
      CategoryValuesCanonical();
      canonical
    case None => normalized
  }

  /** Every value in the table is canonical. */
  lemma CategoryValuesCanonical()
    ensures forall i :: 0 <= i < |CategoryNames| ==> IsCanonical(CategoryNames[i].1)
  {
  }

  // ---------------------------------------------------------------------------
  // Properties

  /** Upper-casing keeps white space as it is and changes nothing else into white space. */
  lemma UpperCharWhiteSpace(c: char)
    ensures IsWhiteSpace(UpperChar(c)) <==> IsWhiteSpace(c)
  {
  }

  /** Upper-casing twice is upper-casing once. */
  lemma ToUpperIdempotent(s: string)
    ensures ToUpper(ToUpper(s)) == ToUpper(s)
  {
  }

  /** A key is already trimmed and upper case, so it is its own key. */
  lemma CategoryKeyIdempotent(categoria: string)
    ensures CategoryKey(CategoryKey(categoria)) == CategoryKey(categoria)
  {
    var t := Trim(categoria);
    var n := ToUpper(t);
    if n != [] {
      UpperCharWhiteSpace(t[0]);
      UpperCharWhiteSpace(t[|t| - 1]);
    }
    assert TrimStart(n) == n;
    assert TrimEnd(n) == n;
    ToUpperIdempotent(t);
  }

  /** A string of capital letters from `A` to `Z` is its own key. */
  lemma CapitalsAreKeys(s: string)
    requires forall i :: 0 <= i < |s| ==> 'A' <= s[i] <= 'Z'
    ensures CategoryKey(s) == s
  {
    TrimUnpadded(s);
  }

  /** Each canonical category reads back as itself. */
  lemma CanonicalLookup(c: string)
    requires IsCanonical(c)
    ensures Get(CategoryNames, c) == Some(c)
  {
    if c == "ASSINATURAS" {
      GetFirst(CategoryNames, 1, c);
    } else if c == "SERVICOS" {
      GetFirst(CategoryNames, 4, c);
    } else {
      GetFirst(CategoryNames, 6, c);
    }
  }

  /** Each canonical category is normalized to itself. */
  lemma CanonicalFixed(c: string)
    requires IsCanonical(c)
    ensures NormalizeCategory(c) == c
  {
    CapitalsAreKeys(c);
    CanonicalLookup(c);
  }

  /** `normalizarCategoria` is idempotent: normalizing a normalized category changes nothing. */
  lemma NormalizeCategoryIdempotent(categoria: string)
    ensures NormalizeCategory(NormalizeCategory(categoria)) == NormalizeCategory(categoria)
  {
    var r := NormalizeCategory(categoria);
    var n := CategoryKey(categoria);
    match Get(CategoryNames, n)
    case Some(v) =>
      GetFound(CategoryNames, n);
      CategoryValuesCanonical();
      CanonicalFixed(v);
    case None =>
      CategoryKeyIdempotent(categoria);
  }

  /** A key the table does not list comes back as the key. */
  lemma NormalizeCategoryUnlisted(categoria: string)
    requires forall i :: 0 <= i < |CategoryNames| ==> CategoryNames[i].0 != CategoryKey(categoria)
    ensures NormalizeCategory(categoria) == CategoryKey(categoria)
  {
    GetMissing(CategoryNames, CategoryKey(categoria));
  }

  /** The spellings of services, in any case and with or without the cedilla, become `SERVICOS`. */
  lemma NormalizeServices(categoria: string)
    requires CategoryKey(categoria) == "SERVIÇO" || CategoryKey(categoria) == "SERVIÇOS" || CategoryKey(categoria) == "SERVICOS"
    ensures NormalizeCategory(categoria) == "SERVICOS"
  {
    var key := CategoryKey(categoria);
    if key == "SERVIÇO" {
      GetFirst(CategoryNames, 2, key);
    } else if key == "SERVIÇOS" {
      GetFirst(CategoryNames, 3, key);
    } else {
      GetFirst(CategoryNames, 4, key);
    }
  }

  /** The keys of two worked inputs: lower case with cedilla, and capitalised. */
  lemma CategoryKeyExamples(a: string, b: string)
    requires a == "serviço" && b == "Serviços"
    ensures CategoryKey(a) == "SERVIÇO" && CategoryKey(b) == "SERVIÇOS"
  {
    TrimUnpadded(a);
    assert ToUpper(a) == "SERVIÇO";
    TrimUnpadded(b);
    assert ToUpper(b) == "SERVIÇOS";
  }

  /** The key of a worked input padded with blanks. */
  lemma CategoryKeyPaddedExample(c: string)
    requires c == " SERVICOS "
    ensures CategoryKey(c) == "SERVICOS"
  {
    var r := c[1..9];
    assert SegmentWithin(c, 1, r);
    TrimUnique(c, 1, r);
    CapitalsAreKeys(r);
  }

  /** A category outside the table, such as `OUTROS`, passes through unchanged. */
  lemma NormalizeOther(categoria: string)
    requires categoria == "OUTROS"
    ensures NormalizeCategory(categoria) == "OUTROS"
  {
    TrimUnpadded(categoria);
    assert ToUpper(categoria) == categoria;
    GetMissing(CategoryNames, categoria);
  }
}
