/**
 * The Kawasaki Z900 scraper: which records it keeps (validate_moto_data) and
 * which search URLs it visits (get_search_urls, the extended layout).
 */
module Z900Scraper {
  import opened Wrappers
  import opened Text
  import opened Seqs
  import opened Patterns
  import opened Frames
  import Config
  import BaseScraper
  import ListingChecks
  import SearchUrls

  /** `kawasaki`, the short `kawa` and the misspelling `kawasaky`. */
  const KawasakiPatterns: seq<Pattern> :=
    [Pattern(Lit("kawasaki"), []), Pattern(Lit("kawa"), []), Pattern(Lit("kawasaky"), [])]

  /** `z[\-\s]*900`, `z\s*900`, `z\s*[\-\.\/]\s*900`, `z[\-\s]*9[\-\s]*0[\-\s]*0`, `z900[\-\s]*rs`, `z900[\-\s]*e` */
  const ModelPatterns: seq<Pattern> := [
    Pattern(Lit("z"), [Step(DashesOrSpaces, Lit("900"))]),
    Pattern(Lit("z"), [Step(Spaces, Lit("900"))]),
    Pattern(Lit("z"), [Step(SpacedPunct, Lit("900"))]),
    Pattern(Lit("z"), [Step(DashesOrSpaces, Lit("9")), Step(DashesOrSpaces, Lit("0")), Step(DashesOrSpaces, Lit("0"))]),
    Pattern(Lit("z900"), [Step(DashesOrSpaces, Lit("rs"))]),
    Pattern(Lit("z900"), [Step(DashesOrSpaces, Lit("e"))])]

  /** Z800, Z650, Z1000, Z300, Z250, any ZX, ER-6 and any Ninja. */
  const ExcludePatterns: seq<Pattern> := [
    Pattern(Lit("z"), [Step(DashesOrSpaces, Lit("800"))]),
    Pattern(Lit("z"), [Step(DashesOrSpaces, Lit("650"))]),
    Pattern(Lit("z"), [Step(DashesOrSpaces, Lit("1000"))]),
    Pattern(Lit("z"), [Step(DashesOrSpaces, Lit("300"))]),
    Pattern(Lit("z"), [Step(DashesOrSpaces, Lit("250"))]),
    Pattern(Lit("zx"), [Step(DashesOrSpaces, Digits)]),
    Pattern(Lit("er"), [Step(DashesOrSpaces, Lit("6"))]),
    Pattern(Lit("ninja"), [])]

  /** The brand check also accepts the first two model spellings: a Z900 is taken to be a Kawasaki. */
  const Checks := ListingChecks.Checks(KawasakiPatterns, ModelPatterns[..2], ModelPatterns, ExcludePatterns,
    Config.Z900.precioMin, Config.Z900.precioMax, Config.Z900.anioMin, Config.Z900.anioMax)

  predicate ValidateMotoData(r: Row, repr: real -> string) {
    ListingChecks.Validate(r, Checks, repr)
  }

  /**
   * On an extracted record: a Kawasaki (or a bare Z900) Z900 that is no
   * excluded model, priced in [4500, 9000] or unpriced, of a year in
   * [2017, 2025] or of none.
   */
  lemma ExtractedRecordValid(url: string, p: BaseScraper.Page, now: string, repr: real -> string)
    ensures var t := Lower(BaseScraper.Titulo(p.titleTexts)) + " ";
      ValidateMotoData(BaseScraper.AnuncioData(url, p, now), repr) <==>
        (MatchesAny(t, KawasakiPatterns) || MatchesAny(t, ModelPatterns[..2]))
        && MatchesAny(t, ModelPatterns) && !MatchesAny(t, ExcludePatterns)
        && ListingChecks.PriceWithin(BaseScraper.Precio(p.priceElements, p.fallbackPrices), 4500, 9000)
        && ListingChecks.YearWithin(BaseScraper.AnioOf(p.titleYears, p.pageYears), 2017, 2025)
  {
    ListingChecks.ExtractedRecordValid(url, p, now, Checks, repr);
  }

  /** "ninja z900" names a Kawasaki and the model, and the word Ninja still excludes it. */
  lemma NinjaExcluded()
    ensures ListingChecks.IsBrand("ninja z900 ", Checks) && MatchesAny("ninja z900 ", ModelPatterns)
      && MatchesAny("ninja z900 ", ExcludePatterns)
  {
    SampleIsModel();
    SampleIsExcluded();
  }

  lemma SampleIsModel()
    ensures MatchesAny("ninja z900 ", ModelPatterns) && MatchesAny("ninja z900 ", ModelPatterns[..2])
  {
    var t := "ninja z900 ";
    assert t[6..7] == "z" && SkipDashesOrSpaces(t, 7) == 7 && t[7..10] == "900";
    assert MatchEnd(t, 6, ModelPatterns[0]) == Some(10);
    MatchWitness(t, 6, ModelPatterns, 0);
    MatchWitness(t, 6, ModelPatterns[..2], 0);
  }

  lemma SampleIsExcluded()
    ensures MatchesAny("ninja z900 ", ExcludePatterns)
  {
    WordAt("ninja z900 ", 0, "ninja");
    MatchWitness("ninja z900 ", 0, ExcludePatterns, 7);
  }

  /** get_search_urls over the scraper's query lists, duplicates dropped in order. */
  method GetSearchUrls(q: SearchUrls.QueryLists) returns (uniqueUrls: seq<string>)
    ensures uniqueUrls == Dedup(SearchUrls.ExtendedUrls(Config.Z900, q))
    ensures NoDuplicates(uniqueUrls) && forall u :: u in uniqueUrls <==> u in SearchUrls.ExtendedUrls(Config.Z900, q)
  {
    uniqueUrls := SearchUrls.GetSearchUrlsExtended(Config.Z900, q);
    SearchUrls.ExtendedUrlsProperties(Config.Z900, q);
  }
}
