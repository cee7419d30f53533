/**
 * The Honda CB125R scraper: which records it keeps (validate_moto_data and
 * its five checks) and which search URLs it visits (get_search_urls).
 */
module Cb125rScraper {
  import opened Wrappers
  import opened Text
  import opened Seqs
  import opened Patterns
  import opened Frames
  import Config
  import BaseScraper
  import ListingChecks
  import SearchUrls

  // ------------------------------------------------------------------
  // validate_moto_data
  // ------------------------------------------------------------------

  const HondaPatterns: seq<Pattern> := [Pattern(Lit("honda"), []), Pattern(Lit("hond"), [])]

  /** `cb[\-\s]*125[\-\s]*r`, `cb125r`, `cb\s*125\s*r`, `cb\s*125[\-\.\/]\s*r`, `c[\-\s]*b[\-\s]*125[\-\s]*r` */
  const ModelPatterns: seq<Pattern> := [
    Pattern(Lit("cb"), [Step(DashesOrSpaces, Lit("125")), Step(DashesOrSpaces, Lit("r"))]),
    Pattern(Lit("cb125r"), []),
    Pattern(Lit("cb"), [Step(Spaces, Lit("125")), Step(Spaces, Lit("r"))]),
    Pattern(Lit("cb"), [Step(Spaces, Lit("125")), Step(PunctThenSpaces, Lit("r"))]),
    Pattern(Lit("c"), [Step(DashesOrSpaces, Lit("b")), Step(DashesOrSpaces, Lit("125")), Step(DashesOrSpaces, Lit("r"))])]

  /** CB125F, CB250R, CB500R, CB650R, CBR125, any CBR, CB600 and CB1000. */
  const ExcludePatterns: seq<Pattern> := [
    Pattern(Lit("cb"), [Step(DashesOrSpaces, Lit("125")), Step(DashesOrSpaces, Lit("f"))]),
    Pattern(Lit("cb"), [Step(DashesOrSpaces, Lit("250")), Step(DashesOrSpaces, Lit("r"))]),
    Pattern(Lit("cb"), [Step(DashesOrSpaces, Lit("500")), Step(DashesOrSpaces, Lit("r"))]),
    Pattern(Lit("cb"), [Step(DashesOrSpaces, Lit("650")), Step(DashesOrSpaces, Lit("r"))]),
    Pattern(Lit("cbr"), [Step(DashesOrSpaces, Lit("125"))]),
    Pattern(Lit("cbr"), []),
    Pattern(Lit("cb"), [Step(DashesOrSpaces, Lit("600"))]),
    Pattern(Lit("cb"), [Step(DashesOrSpaces, Lit("1000"))])]

  /** Whole-word honda or hond; a CB125R written as such also counts as a Honda (the first two model patterns). */
  predicate IsHondaBrand(t: string) {
    MatchesAny(t, HondaPatterns) || MatchesAny(t, ModelPatterns[..2])
  }

  predicate IsCb125rModel(t: string) {
    MatchesAny(t, ModelPatterns)
  }

  predicate IsExcludedModel(t: string) {
    MatchesAny(t, ExcludePatterns)
  }

  /**
   * _is_valid_price_range: empty text and the placeholder are accepted;
   * otherwise all digits of the text, once dots, commas and spaces are
   * deleted, are joined into one number that must lie in the model's range,
   * and text without digits is accepted. A cell that is not text is accepted
   * (0.0 is falsy; .replace on another float raises inside the try).
   */
  predicate IsValidPriceRange(c: Cell) {
    match c
    case Text(s) =>
      s == [] || s == BaseScraper.NoEspecificado || (
        var digits := KeepDigits(RemoveChar(RemoveChar(RemoveChar(s, '.'), ','), ' '));
        digits == [] || Config.CB125R.precioMin <= DigitsValue(digits) <= Config.CB125R.precioMax)
    case _ => true
  }

  /** _is_valid_year_range: the placeholder is accepted as well. */
  predicate IsValidYearRange(c: Cell, repr: real -> string) {
    c == Text(BaseScraper.NoEspecificado) || ListingChecks.YearCellInRange(c, Config.CB125R.anioMin, Config.CB125R.anioMax, repr)
  }

  /**
   * validate_moto_data: brand, model, no excluded model, price and year, in
   * that order; False when the title or description is not text.
   */
  predicate ValidateMotoData(r: Row, repr: real -> string) {
    match ListingChecks.CombinedText(r)
    case None => false
    case Some(t) =>
      IsHondaBrand(t) && IsCb125rModel(t) && !IsExcludedModel(t)
      && IsValidPriceRange(ListingChecks.Field(r, "Precio"))
      && IsValidYearRange(ListingChecks.Field(r, "A\U{F1}o"), repr)
  }

  /** Joining the digits of a price label gives the digits of its value. */
  lemma JoinedDigitsOfLabel(n: nat)
    ensures KeepDigits(RemoveChar(RemoveChar(RemoveChar(BaseScraper.PriceLabel(n), '.'), ','), ' ')) == RemoveChar(Grouped(n), '.')
  {
    var g := Grouped(n);
    var s := BaseScraper.PriceLabel(n);
    KeepDigitsRemoveChar(RemoveChar(RemoveChar(s, '.'), ','), ' ');
    KeepDigitsRemoveChar(RemoveChar(s, '.'), ',');
    KeepDigitsRemoveChar(s, '.');
    KeepDigitsConcat(g, " \U{20AC}");
    assert KeepDigits(" \U{20AC}") == [];
    KeepDigitsOfDotted(g);
  }

  /** The joined-digits check reads a price label back as its value. */
  lemma PriceLabelChecked(n: nat)
    ensures IsValidPriceRange(Text(BaseScraper.PriceLabel(n))) <==> 1000 <= n <= 4500
  {
    var g := Grouped(n);
    var d := RemoveChar(g, '.');
    BaseScraper.PriceLabelIsNotPlaceholder(n);
    JoinedDigitsOfLabel(n);
    GroupedDigits(n);
    assert d != [] by {
      assert d[0] == g[0];
    }
    DigitsReadBack(BaseScraper.PriceLabel(n), d, n);
  }

  /** A label whose joined digits spell n passes exactly when n is in range. */
  lemma DigitsReadBack(s: string, d: string, n: nat)
    requires s != [] && s != BaseScraper.NoEspecificado
    requires KeepDigits(RemoveChar(RemoveChar(RemoveChar(s, '.'), ','), ' ')) == d
    requires d != [] && DigitsValue(d) == n
    ensures IsValidPriceRange(Text(s)) <==> 1000 <= n <= 4500
  {
  }

  /**
   * On the record the base scraper extracts from a page, the validator keeps
   * it exactly when the lower-cased title names a Honda CB125R and no
   * excluded model, the price label is the placeholder or a value in
   * [1000, 4500], and the year label is the placeholder or a year in
   * [2018, 2025].
   */
  lemma ExtractedRecordValid(url: string, p: BaseScraper.Page, now: string, repr: real -> string)
    ensures var t := Lower(BaseScraper.Titulo(p.titleTexts)) + " ";
      ValidateMotoData(BaseScraper.AnuncioData(url, p, now), repr) <==>
        IsHondaBrand(t) && IsCb125rModel(t) && !IsExcludedModel(t)
        && ListingChecks.PriceWithin(BaseScraper.Precio(p.priceElements, p.fallbackPrices), 1000, 4500)
        && ListingChecks.YearWithin(BaseScraper.AnioOf(p.titleYears, p.pageYears), 2018, 2025)
  {
    var r := BaseScraper.AnuncioData(url, p, now);
    ListingChecks.RecordFields(url, p, now);
    ListingChecks.TitleOnlyText(r, BaseScraper.Titulo(p.titleTexts));
    ExtractedPriceChecked(p.priceElements, p.fallbackPrices);
    ListingChecks.ExtractedYearChecked(p.titleYears, p.pageYears, 2018, 2025, repr);
  }

  lemma ExtractedPriceChecked(selected: seq<(string, seq<nat>)>, fallback: seq<seq<nat>>)
    ensures IsValidPriceRange(Text(BaseScraper.Precio(selected, fallback)))
      <==> ListingChecks.PriceWithin(BaseScraper.Precio(selected, fallback), 1000, 4500)
  {
    var shown := BaseScraper.Precio(selected, fallback);
    BaseScraper.PrecioReadsBack(selected, fallback);
    if shown != BaseScraper.NoEspecificado {
      var n: nat :| 500 <= n <= 60000 && shown == BaseScraper.PriceLabel(n);
      PriceLabelChecked(n);
      forall m: nat | shown == BaseScraper.PriceLabel(m) ensures m == n {
        ListingChecks.PriceLabelChecked(m, m, m);
        ListingChecks.PriceLabelChecked(n, m, m);
      }
    }
  }

  /** A bare "cb125r", with no brand named, passes the brand check. */
  lemma BareModelIsHonda()
    ensures IsHondaBrand("cb125r")
  {
    var t := "cb125r";
    WordAt(t, 0, "cb125r");
    assert MatchesAt(t, 0, ModelPatterns[..2][1]);
  }

  /** An excluded model rejects the text even where the CB125R is named too. */
  lemma ExcludedDespiteModel()
    ensures var t := "honda cb125r cbr ";
      IsHondaBrand(t) && IsCb125rModel(t) && IsExcludedModel(t)
  {
    SampleIsHonda();
    SampleIsModel();
    SampleIsExcluded();
  }

  lemma SampleIsHonda()
    ensures MatchesAny("honda cb125r cbr ", HondaPatterns)
  {
    WordAt("honda cb125r cbr ", 0, "honda");
    MatchWitness("honda cb125r cbr ", 0, HondaPatterns, 0);
  }

  lemma SampleIsModel()
    ensures MatchesAny("honda cb125r cbr ", ModelPatterns)
  {
    WordAt("honda cb125r cbr ", 6, "cb125r");
    MatchWitness("honda cb125r cbr ", 6, ModelPatterns, 1);
  }

  lemma SampleIsExcluded()
    ensures MatchesAny("honda cb125r cbr ", ExcludePatterns)
  {
    WordAt("honda cb125r cbr ", 13, "cbr");
    MatchWitness("honda cb125r cbr ", 13, ExcludePatterns, 5);
  }

  // ------------------------------------------------------------------
  // get_search_urls
  // ------------------------------------------------------------------

  const BaseQueries: seq<string> := [
    "honda%20cb125r", "honda%20cb%20125%20r", "cb125r", "cb%20125%20r", "honda%20cb125r%202020",
    "honda%20cb125r%202021", "honda%20cb125r%202022", "honda%20cb125r%202023", "honda%20cb125r%202024"]

  /** The queries also searched newest first. */
  const NewestQueries: seq<string> := ["honda%20cb125r", "cb125r"]

  /** The model's price filter, appended to every URL. */
  function Filter(): string {
    Config.PriceFilter(Config.CB125R)
  }

  /** One query's URLs: the price-filtered search, and for the main queries the newest-first one. */
  function QueryEntries(q: string, f: string): seq<string> {
    [SearchUrls.Url(q, f, "")] + (if q in NewestQueries then [SearchUrls.Url(q, f, SearchUrls.Newest)] else [])
  }

  function Built(qs: seq<string>, f: string): (us: seq<string>)
    ensures forall u | u in us :: HasAt(u, 0, Config.SearchPrefix)
  {
    if qs == [] then [] else Built(qs[..|qs| - 1], f) + QueryEntries(qs[|qs| - 1], f)
  }

  lemma BuiltStep(qs: seq<string>, i: nat, f: string)
    requires i < |qs|
    ensures Built(qs[..i + 1], f) == Built(qs[..i], f) + QueryEntries(qs[i], f)
  {
    assert qs[..i + 1][..i] == qs[..i];
  }

  /** get_search_urls: the first 8 unique URLs under GitHub Actions, all of them otherwise. */
  function SearchUrlsOf(githubActions: bool): seq<string> {
    var unique := Dedup(Built(BaseQueries, Filter()));
    Config.Take(unique, if githubActions then 8 else |unique|)
  }

  method GetSearchUrls(githubActions: bool) returns (finalUrls: seq<string>)
    ensures finalUrls == SearchUrlsOf(githubActions)
  {
    var urls := AppendQueries(BaseQueries, Filter());
    var uniqueUrls := DedupInOrder(urls);
    var maxUrls := if githubActions then 8 else |uniqueUrls|;
    finalUrls := Config.Take(uniqueUrls, maxUrls);
  }

  /** The loop over the queries of get_search_urls. */
  method AppendQueries(qs: seq<string>, f: string) returns (urls: seq<string>)
    ensures urls == Built(qs, f)
  {
    urls := [];
    var i := 0;
    while i < |qs|
      invariant 0 <= i <= |qs|
      invariant urls == Built(qs[..i], f)
    {
      var query := qs[i];
      BuiltStep(qs, i, f);
      urls := urls + [SearchUrls.Url(query, f, "")];
      if query in NewestQueries {
        urls := urls + [SearchUrls.Url(query, f, SearchUrls.Newest)];
      }
      i := i + 1;
    }
    assert qs[..i] == qs;
  }

  /** Which queries are also searched newest first. */
  lemma NewestOnlyForMain()
    ensures BaseQueries[0] in NewestQueries && BaseQueries[2] in NewestQueries
    ensures forall k | 0 <= k < |BaseQueries| && k != 0 && k != 2 :: BaseQueries[k] !in NewestQueries
  {
    forall k | 0 <= k < |BaseQueries| && k != 0 && k != 2 ensures BaseQueries[k] !in NewestQueries {
      assert |BaseQueries[k]| != 14 && |BaseQueries[k]| != 6;
    }
  }

  /** The eleven URLs in the order they are built. */
  lemma BuiltInFull(f: string)
    ensures var q := BaseQueries;
      Built(BaseQueries, f) == [
        SearchUrls.Url(q[0], f, ""), SearchUrls.Url(q[0], f, SearchUrls.Newest), SearchUrls.Url(q[1], f, ""),
        SearchUrls.Url(q[2], f, ""), SearchUrls.Url(q[2], f, SearchUrls.Newest), SearchUrls.Url(q[3], f, ""),
        SearchUrls.Url(q[4], f, ""), SearchUrls.Url(q[5], f, ""), SearchUrls.Url(q[6], f, ""),
        SearchUrls.Url(q[7], f, ""), SearchUrls.Url(q[8], f, "")]
  {
    var q := BaseQueries;
    NewestOnlyForMain();
    assert q[..0] == [];
    BuiltStep(q, 0, f);
    BuiltStep(q, 1, f);
    BuiltStep(q, 2, f);
    BuiltStep(q, 3, f);
    BuiltStep(q, 4, f);
    BuiltStep(q, 5, f);
    BuiltStep(q, 6, f);
    BuiltStep(q, 7, f);
    BuiltStep(q, 8, f);
    assert q[..9] == q;
  }

  /** The eleven URLs differ pairwise. */
  lemma BuiltDistinct(f: string)
    ensures NoDuplicates(Built(BaseQueries, f)) && |Built(BaseQueries, f)| == 11
  {
    var us := Built(BaseQueries, f);
    BuiltInFull(f);
    var q := BaseQueries;
    var qs := [q[0], q[0], q[1], q[2], q[2], q[3], q[4], q[5], q[6], q[7], q[8]];
    var os := ["", SearchUrls.Newest, "", "", SearchUrls.Newest, "", "", "", "", "", ""];
    assert forall k | 0 <= k < 11 :: us[k] == SearchUrls.Url(qs[k], f, os[k]);
    forall a, b | 0 <= a < b < 11 ensures us[a] != us[b] {
      if |qs[a]| + |os[a]| == |qs[b]| + |os[b]| {
        assert 6 <= a && |qs[a]| == |qs[b]| == 21 && qs[a][20] != qs[b][20];
      }
      SearchUrls.UrlsDiffer(qs[a], os[a], qs[b], os[b], f);
    }
  }

  /**
   * The eleven URLs are all different: nine queries, two of them also newest
   * first. Under GitHub Actions only the first eight are visited.
   */
  lemma SearchUrlCount()
    ensures |SearchUrlsOf(false)| == 11 && |SearchUrlsOf(true)| == 8
    ensures SearchUrlsOf(true) == SearchUrlsOf(false)[..8]
    ensures NoDuplicates(SearchUrlsOf(false))
    ensures forall u | u in SearchUrlsOf(false) :: HasAt(u, 0, Config.SearchPrefix)
  {
    var us := Built(BaseQueries, Filter());
    BuiltDistinct(Filter());
    assert DistinctKeys(us, Identity);
    DedupByDistinct(us, Identity);
  }
}
