/**
 * What the five model scrapers' validate_moto_data share: how a record's
 * fields are read, the lower-cased text the brand and model patterns are
 * searched in, and the price and year range checks (PASO 4 and PASO 5).
 *
 * The checks are stated on the record cells the validators receive, and
 * lemmas here relate them to the labels the base scraper's extractors write:
 * a price label passes the price check exactly when its value lies in the
 * model's range, and so does a year label for the year check.
 */
module ListingChecks {
  import opened Wrappers
  import opened Text
  import opened Patterns
  import opened Frames
  import BaseScraper

  /** moto_data.get(k, ''): the cell, or the empty text when the record lacks k. */
  function Field(r: Row, k: string): (c: Cell)
    ensures k !in r ==> c == Text("")
    ensures k in r ==> c == r[k]
  {
    if k in r then r[k] else Text("")
  }

  /**
   * f"{titulo} {descripcion}" of the lower-cased title and description;
   * None where .lower() is called on a cell that is not text, which raises
   * and makes the validator answer False.
   */
  function CombinedText(r: Row): (t: Option<string>)
    ensures t.Some? <==> Field(r, "T\U{ED}tulo").Text? && Field(r, "Descripcion").Text?
  {
    match (Field(r, "T\U{ED}tulo"), Field(r, "Descripcion"))
    case (Text(titulo), Text(descripcion)) => Some(Lower(titulo) + " " + Lower(descripcion))
    case _ => None
  }

  /**
   * _is_valid_price_range of the PCX125, Agility125, Z900 and MT-07
   * scrapers: empty text is accepted; otherwise, once dots and commas are
   * deleted, the first run of digits must lie in [lo, hi], and text without
   * digits is accepted. A cell that is not text is accepted: 0.0 is falsy,
   * and .replace on any other float raises inside the try.
   */
  predicate FirstPriceInRange(c: Cell, lo: nat, hi: nat) {
    match c
    case Text(s) =>
      s == [] || (
        match FirstNumber(RemoveChar(RemoveChar(s, '.'), ','))
        case None => true
        case Some(p) => lo <= p <= hi)
    case _ => true
  }

  /**
   * _is_valid_year_range: empty text is accepted; otherwise the first
   * `20dd` of str(value) must lie in [lo, hi], and text without one is
   * accepted. NaN is truthy and str(nan) holds no year; 0.0 is falsy;
   * `repr` stands for str() of any other float.
   */
  predicate YearCellInRange(c: Cell, lo: nat, hi: nat, repr: real -> string) {
    match c
    case Text(s) => s == [] || YearTextInRange(s, lo, hi)
    case NaN => true
    case Num(x) => x == 0.0 || YearTextInRange(repr(x), lo, hi)
  }

  predicate YearTextInRange(s: string, lo: nat, hi: nat) {
    match First20Year(s)
    case None => true
    case Some(y) => lo <= y <= hi
  }

  /** The price label the extractor wrote states a value in [lo, hi], or is the placeholder. */
  ghost predicate PriceWithin(shown: string, lo: nat, hi: nat) {
    shown == BaseScraper.NoEspecificado || exists n: nat :: shown == BaseScraper.PriceLabel(n) && lo <= n <= hi
  }

  /** The year label the extractor wrote states a year in [lo, hi], or is the placeholder. */
  ghost predicate YearWithin(shown: string, lo: nat, hi: nat) {
    shown == BaseScraper.NoEspecificado || exists y: nat :: shown == NatToString(y) && lo <= y <= hi
  }

  /** Deleting dots and commas from a price label leaves the value's digits and the currency sign. */
  lemma PriceLabelDigits(n: nat)
    ensures var d := RemoveChar(Grouped(n), '.');
      IsDigitString(d) && DigitsValue(d) == n
      && RemoveChar(RemoveChar(BaseScraper.PriceLabel(n), '.'), ',') == d + " \U{20AC}"
  {
    var g := Grouped(n);
    var d := RemoveChar(g, '.');
    GroupedDigits(n);
    assert d[0] == g[0];
    RemoveCharConcat(g, " \U{20AC}", '.');
    RemoveAbsent(" \U{20AC}", '.');
    RemoveCharConcat(d, " \U{20AC}", ',');
    RemoveAbsent(" \U{20AC}", ',');
    RemoveAbsent(d, ',');
  }

  /** The first-digit-run check reads a price label back as its value. */
  lemma PriceLabelChecked(n: nat, lo: nat, hi: nat)
    ensures FirstPriceInRange(Text(BaseScraper.PriceLabel(n)), lo, hi) <==> lo <= n <= hi
  {
    PriceLabelDigits(n);
    var d := RemoveChar(Grouped(n), '.');
    FirstDigitRunOfDigits(d, " \U{20AC}");
  }

  /** Text without a digit passes both checks, whatever the range. */
  lemma DigitFreeAccepted(s: string, lo: nat, hi: nat, repr: real -> string)
    requires forall i | 0 <= i < |s| :: !IsDigit(s[i])
    ensures FirstPriceInRange(Text(s), lo, hi)
    ensures YearCellInRange(Text(s), lo, hi, repr)
  {
    var t := RemoveChar(RemoveChar(s, '.'), ',');
    KeepDigitsRemoveChar(s, '.');
    KeepDigitsRemoveChar(RemoveChar(s, '.'), ',');
    assert KeepDigits(t) == [];
    First20YearNeedsDigit(s);
  }

  /** The placeholder has no digit, so every range accepts it. */
  lemma PlaceholderAccepted(lo: nat, hi: nat, repr: real -> string)
    ensures FirstPriceInRange(Text(BaseScraper.NoEspecificado), lo, hi)
    ensures YearCellInRange(Text(BaseScraper.NoEspecificado), lo, hi, repr)
  {
    var s := BaseScraper.NoEspecificado;
    assert forall i | 0 <= i < |s| :: !IsDigit(s[i]);
    DigitFreeAccepted(s, lo, hi, repr);
  }

  /** Just the labels the extractor can write pass the price check: the placeholder, and values in range. */
  lemma ExtractedPriceChecked(selected: seq<(string, seq<nat>)>, fallback: seq<seq<nat>>, lo: nat, hi: nat)
    ensures FirstPriceInRange(Text(BaseScraper.Precio(selected, fallback)), lo, hi)
      <==> PriceWithin(BaseScraper.Precio(selected, fallback), lo, hi)
  {
    var shown := BaseScraper.Precio(selected, fallback);
    BaseScraper.PrecioReadsBack(selected, fallback);
    if shown == BaseScraper.NoEspecificado {
      PlaceholderAccepted(lo, hi, (x: real) => "");
    } else {
      var n: nat :| 500 <= n <= 60000 && shown == BaseScraper.PriceLabel(n);
      PriceLabelChecked(n, lo, hi);
      forall m: nat | shown == BaseScraper.PriceLabel(m) ensures m == n {
        PriceLabelChecked(m, m, m);
        PriceLabelChecked(n, m, m);
      }
    }
  }

  /** A year label reads back through the year check for every year of this century. */
  lemma YearLabelChecked(y: nat, lo: nat, hi: nat, repr: real -> string)
    requires 2000 <= y <= 2099
    ensures YearCellInRange(Text(NatToString(y)), lo, hi, repr) <==> lo <= y <= hi
  {
    YearScansOfYear(y);
  }

  /** Just the labels the year extractor can write pass the year check: the placeholder, and years in range. */
  lemma ExtractedYearChecked(titleFound: seq<nat>, bodyFound: seq<nat>, lo: nat, hi: nat, repr: real -> string)
    ensures YearCellInRange(Text(BaseScraper.AnioOf(titleFound, bodyFound)), lo, hi, repr)
      <==> YearWithin(BaseScraper.AnioOf(titleFound, bodyFound), lo, hi)
  {
    var shown := BaseScraper.AnioOf(titleFound, bodyFound);
    BaseScraper.AnioReadsBack(titleFound, bodyFound, 2025);
    if shown == BaseScraper.NoEspecificado {
      PlaceholderAccepted(lo, hi, repr);
    } else {
      var y: nat :| 2010 <= y <= 2025 && shown == NatToString(y);
      YearLabelChecked(y, lo, hi, repr);
      forall m: nat | shown == NatToString(m) ensures m == y {
        NatToStringInjective(m, y);
      }
    }
  }

  /** The fields of the extractor's record that the validators read. It has no description. */
  lemma RecordFields(url: string, p: BaseScraper.Page, now: string)
    ensures var r := BaseScraper.AnuncioData(url, p, now);
      Field(r, "T\U{ED}tulo") == Text(BaseScraper.Titulo(p.titleTexts)) && Field(r, "Descripcion") == Text("")
      && Field(r, "Precio") == Text(BaseScraper.Precio(p.priceElements, p.fallbackPrices))
      && Field(r, "A\U{F1}o") == Text(BaseScraper.AnioOf(p.titleYears, p.pageYears))
  {
    BaseScraper.RecordFields(url, BaseScraper.Titulo(p.titleTexts), BaseScraper.Precio(p.priceElements, p.fallbackPrices),
      BaseScraper.KilometrajeOf(p.kmFound), BaseScraper.AnioOf(p.titleYears, p.pageYears), BaseScraper.Vendedor(p.sellerTexts),
      BaseScraper.Ubicacion(p.locationTexts), BaseScraper.FechaPublicacion(p.dateTexts), now);
  }

  /** With no description, the patterns are searched in the lower-cased title followed by one space. */
  lemma TitleOnlyText(r: Row, titulo: string)
    requires Field(r, "T\U{ED}tulo") == Text(titulo) && Field(r, "Descripcion") == Text("")
    ensures CombinedText(r) == Some(Lower(titulo) + " ")
  {
    assert Lower("") == "";
    assert Lower(titulo) + " " + Lower("") == Lower(titulo) + " ";
  }

  // ------------------------------------------------------------------
  // The validator of the PCX125, Agility125, Z900 and MT-07 scrapers
  // ------------------------------------------------------------------

  /**
   * One scraper's checks: the brand patterns, the model patterns that also
   * stand for the brand, the model and excluded patterns, and the model's
   * price and year ranges.
   */
  datatype Checks = Checks(brand: seq<Pattern>, inferred: seq<Pattern>, model: seq<Pattern>, exclude: seq<Pattern>,
                           priceMin: nat, priceMax: nat, yearMin: nat, yearMax: nat)

  /** _is_<brand>_brand: a brand pattern, or one of the model spellings that name the brand by themselves. */
  predicate IsBrand(t: string, k: Checks) {
    MatchesAny(t, k.brand) || MatchesAny(t, k.inferred)
  }

  /**
   * validate_moto_data: brand, model, no excluded model, then the price and
   * the year, in that order; False when the title or description is not text.
   */
  predicate Validate(r: Row, k: Checks, repr: real -> string) {
    match CombinedText(r)
    case None => false
    case Some(t) =>
      IsBrand(t, k) && MatchesAny(t, k.model) && !MatchesAny(t, k.exclude)
      && FirstPriceInRange(Field(r, "Precio"), k.priceMin, k.priceMax)
      && YearCellInRange(Field(r, "A\U{F1}o"), k.yearMin, k.yearMax, repr)
  }

  /**
   * On the record the base scraper extracts from a page, the validator keeps
   * it exactly when the lower-cased title passes the brand, model and
   * exclusion patterns, the price label is the placeholder or a value in the
   * price range, and the year label is the placeholder or a year in the year
   * range.
   */
  lemma ExtractedRecordValid(url: string, p: BaseScraper.Page, now: string, k: Checks, repr: real -> string)
    ensures var t := Lower(BaseScraper.Titulo(p.titleTexts)) + " ";
      Validate(BaseScraper.AnuncioData(url, p, now), k, repr) <==>
        IsBrand(t, k) && MatchesAny(t, k.model) && !MatchesAny(t, k.exclude)
        && PriceWithin(BaseScraper.Precio(p.priceElements, p.fallbackPrices), k.priceMin, k.priceMax)
        && YearWithin(BaseScraper.AnioOf(p.titleYears, p.pageYears), k.yearMin, k.yearMax)
  {
    var r := BaseScraper.AnuncioData(url, p, now);
    RecordFields(url, p, now);
    TitleOnlyText(r, BaseScraper.Titulo(p.titleTexts));
    ExtractedPriceChecked(p.priceElements, p.fallbackPrices, k.priceMin, k.priceMax);
    ExtractedYearChecked(p.titleYears, p.pageYears, k.yearMin, k.yearMax, repr);
  }
}
