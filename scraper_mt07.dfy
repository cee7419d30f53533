/**
 * The Yamaha MT-07 scraper: which records it keeps (validate_moto_data) and
 * which search URLs it visits (get_search_urls, the extended layout).
 */
module Mt07Scraper {
  import opened Wrappers
  import opened Text
  import opened Seqs
  import opened Patterns
  import opened Frames
  import Config
  import BaseScraper
  import ListingChecks
  import SearchUrls

  /** `yamaha` and its two common misspellings. */
  const YamahaPatterns: seq<Pattern> := [Pattern(Lit("yamaha"), []), Pattern(Lit("yamha"), []), Pattern(Lit("ymaha"), [])]

  /** `mt[\-\s]*0?7`, `mt\s*0?7`, `mt\s*[\-\.\/]\s*0?7` and `m[\-\s]*t[\-\s]*0?7`, each with "07" before "7". */
  const ModelPatterns: seq<Pattern> := [
    Pattern(Lit("mt"), [Step(DashesOrSpaces, Lit("07"))]),
    Pattern(Lit("mt"), [Step(DashesOrSpaces, Lit("7"))]),
    Pattern(Lit("mt"), [Step(Spaces, Lit("07"))]),
    Pattern(Lit("mt"), [Step(Spaces, Lit("7"))]),
    Pattern(Lit("mt"), [Step(SpacedPunct, Lit("07"))]),
    Pattern(Lit("mt"), [Step(SpacedPunct, Lit("7"))]),
    Pattern(Lit("m"), [Step(DashesOrSpaces, Lit("t")), Step(DashesOrSpaces, Lit("07"))]),
    Pattern(Lit("m"), [Step(DashesOrSpaces, Lit("t")), Step(DashesOrSpaces, Lit("7"))])]

  /** MT-03, MT-09, MT-10, MT-125, MT-15, Tracer, XMAX, TMAX and any FZ. */
  const ExcludePatterns: seq<Pattern> := [
    Pattern(Lit("mt"), [Step(DashesOrSpaces, Lit("03"))]),
    Pattern(Lit("mt"), [Step(DashesOrSpaces, Lit("09"))]),
    Pattern(Lit("mt"), [Step(DashesOrSpaces, Lit("10"))]),
    Pattern(Lit("mt"), [Step(DashesOrSpaces, Lit("125"))]),
    Pattern(Lit("mt"), [Step(DashesOrSpaces, Lit("15"))]),
    Pattern(Lit("tracer"), []),
    Pattern(Lit("xmax"), []),
    Pattern(Lit("tmax"), []),
    Pattern(Lit("fz"), [Step(DashesOrSpaces, Digits)])]

  /** The brand check also accepts the first two model spellings: an MT-07 is taken to be a Yamaha. */
  const Checks := ListingChecks.Checks(YamahaPatterns, ModelPatterns[..2], ModelPatterns, ExcludePatterns,
    Config.MT07.precioMin, Config.MT07.precioMax, Config.MT07.anioMin, Config.MT07.anioMax)

  predicate ValidateMotoData(r: Row, repr: real -> string) {
    ListingChecks.Validate(r, Checks, repr)
  }

  /**
   * On an extracted record: a Yamaha (or a bare MT-07) MT-07 that is no
   * excluded model, priced in [3000, 7500] or unpriced, of a year in
   * [2014, 2025] or of none.
   */
  lemma ExtractedRecordValid(url: string, p: BaseScraper.Page, now: string, repr: real -> string)
    ensures var t := Lower(BaseScraper.Titulo(p.titleTexts)) + " ";
      ValidateMotoData(BaseScraper.AnuncioData(url, p, now), repr) <==>
        (MatchesAny(t, YamahaPatterns) || MatchesAny(t, ModelPatterns[..2]))
        && MatchesAny(t, ModelPatterns) && !MatchesAny(t, ExcludePatterns)
        && ListingChecks.PriceWithin(BaseScraper.Precio(p.priceElements, p.fallbackPrices), 3000, 7500)
        && ListingChecks.YearWithin(BaseScraper.AnioOf(p.titleYears, p.pageYears), 2014, 2025)
  {
    ListingChecks.ExtractedRecordValid(url, p, now, Checks, repr);
  }

  /** A bare "mt-07" passes the brand check and the model check. */
  lemma BareModelIsYamaha()
    ensures ListingChecks.IsBrand("mt-07 ", Checks) && MatchesAny("mt-07 ", ModelPatterns)
  {
    var t := "mt-07 ";
    assert t[0..2] == "mt" && SkipDashesOrSpaces(t, 2) == 3 && t[3..5] == "07";
    assert MatchEnd(t, 0, ModelPatterns[0]) == Some(5);
    MatchWitness(t, 0, ModelPatterns, 0);
    MatchWitness(t, 0, ModelPatterns[..2], 0);
  }

  /** A Yamaha MT-09 is a Yamaha, but an excluded model. */
  lemma SiblingExcluded()
    ensures ListingChecks.IsBrand("yamaha mt-09 ", Checks) && MatchesAny("yamaha mt-09 ", ExcludePatterns)
  {
    SampleIsYamaha();
    SampleIsExcluded();
  }

  lemma SampleIsYamaha()
    ensures MatchesAny("yamaha mt-09 ", YamahaPatterns)
  {
    WordAt("yamaha mt-09 ", 0, "yamaha");
    MatchWitness("yamaha mt-09 ", 0, YamahaPatterns, 0);
  }

  lemma SampleIsExcluded()
    ensures MatchesAny("yamaha mt-09 ", ExcludePatterns)
  {
    var t := "yamaha mt-09 ";
    assert t[7..9] == "mt" && SkipDashesOrSpaces(t, 9) == 10 && t[10..12] == "09";
    assert MatchEnd(t, 7, ExcludePatterns[1]) == Some(12);
    MatchWitness(t, 7, ExcludePatterns, 1);
  }

  /** get_search_urls over the scraper's query lists, duplicates dropped in order. */
  method GetSearchUrls(q: SearchUrls.QueryLists) returns (uniqueUrls: seq<string>)
    ensures uniqueUrls == Dedup(SearchUrls.ExtendedUrls(Config.MT07, q))
    ensures NoDuplicates(uniqueUrls) && forall u :: u in uniqueUrls <==> u in SearchUrls.ExtendedUrls(Config.MT07, q)
  {
    uniqueUrls := SearchUrls.GetSearchUrlsExtended(Config.MT07, q);
    SearchUrls.ExtendedUrlsProperties(Config.MT07, q);
  }
}
