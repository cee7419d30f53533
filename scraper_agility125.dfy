/**
 * The Kymco Agility125 scraper: which records it keeps (validate_moto_data)
 * and which search URLs it visits (get_search_urls, the extended layout).
 */
module Agility125Scraper {
  import opened Wrappers
  import opened Text
  import opened Seqs
  import opened Patterns
  import opened Frames
  import Config
  import BaseScraper
  import ListingChecks
  import SearchUrls

  /** `kymco` and its two common misspellings. */
  const KymcoPatterns: seq<Pattern> := [Pattern(Lit("kymco"), []), Pattern(Lit("kimco"), []), Pattern(Lit("kimko"), [])]

  /** `agility[\-\s]*125`, `agility\s*125`, `agility\s*[\-\.\/]\s*125`, `a[\-\s]*g[\-\s]*i...y[\-\s]*125` */
  const ModelPatterns: seq<Pattern> := [
    Pattern(Lit("agility"), [Step(DashesOrSpaces, Lit("125"))]),
    Pattern(Lit("agility"), [Step(Spaces, Lit("125"))]),
    Pattern(Lit("agility"), [Step(SpacedPunct, Lit("125"))]),
    Pattern(Lit("a"), [Step(DashesOrSpaces, Lit("g")), Step(DashesOrSpaces, Lit("i")), Step(DashesOrSpaces, Lit("l")),
      Step(DashesOrSpaces, Lit("i")), Step(DashesOrSpaces, Lit("t")), Step(DashesOrSpaces, Lit("y")),
      Step(DashesOrSpaces, Lit("125"))])]

  /** Agility 50, 16, 200 and 150, People, Super 8, Downtown, Xciting and MyRoad. */
  const ExcludePatterns: seq<Pattern> := [
    Pattern(Lit("agility"), [Step(DashesOrSpaces, Lit("50"))]),
    Pattern(Lit("agility"), [Step(DashesOrSpaces, Lit("16"))]),
    Pattern(Lit("agility"), [Step(DashesOrSpaces, Lit("200"))]),
    Pattern(Lit("agility"), [Step(DashesOrSpaces, Lit("150"))]),
    Pattern(Lit("people"), []),
    Pattern(Lit("super"), [Step(DashesOrSpaces, Lit("8"))]),
    Pattern(Lit("downtown"), []),
    Pattern(Lit("xciting"), []),
    Pattern(Lit("myroad"), [])]

  /** The brand check also accepts the first two model spellings: an Agility 125 is taken to be a Kymco. */
  const Checks := ListingChecks.Checks(KymcoPatterns, ModelPatterns[..2], ModelPatterns, ExcludePatterns,
    Config.AGILITY125.precioMin, Config.AGILITY125.precioMax, Config.AGILITY125.anioMin, Config.AGILITY125.anioMax)

  predicate ValidateMotoData(r: Row, repr: real -> string) {
    ListingChecks.Validate(r, Checks, repr)
  }

  /**
   * On an extracted record: a Kymco (or a bare Agility 125) Agility125 that is
   * no excluded model, priced in [800, 3000] or unpriced, of a year in
   * [2014, 2025] or of none.
   */
  lemma ExtractedRecordValid(url: string, p: BaseScraper.Page, now: string, repr: real -> string)
    ensures var t := Lower(BaseScraper.Titulo(p.titleTexts)) + " ";
      ValidateMotoData(BaseScraper.AnuncioData(url, p, now), repr) <==>
        (MatchesAny(t, KymcoPatterns) || MatchesAny(t, ModelPatterns[..2]))
        && MatchesAny(t, ModelPatterns) && !MatchesAny(t, ExcludePatterns)
        && ListingChecks.PriceWithin(BaseScraper.Precio(p.priceElements, p.fallbackPrices), 800, 3000)
        && ListingChecks.YearWithin(BaseScraper.AnioOf(p.titleYears, p.pageYears), 2014, 2025)
  {
    ListingChecks.ExtractedRecordValid(url, p, now, Checks, repr);
  }

  /** A bare "agility 125" passes the brand check and the model check. */
  lemma BareModelIsKymco()
    ensures ListingChecks.IsBrand("agility 125 ", Checks) && MatchesAny("agility 125 ", ModelPatterns)
  {
    var t := "agility 125 ";
    assert t[0..7] == "agility" && SkipDashesOrSpaces(t, 7) == 8 && t[8..11] == "125";
    assert MatchEnd(t, 0, ModelPatterns[0]) == Some(11);
    MatchWitness(t, 0, ModelPatterns, 0);
    MatchWitness(t, 0, ModelPatterns[..2], 0);
  }

  /** A Kymco Agility 50 is a Kymco, but an excluded model. */
  lemma SiblingExcluded()
    ensures ListingChecks.IsBrand("kymco agility 50 ", Checks) && MatchesAny("kymco agility 50 ", ExcludePatterns)
  {
    SampleIsKymco();
    SampleIsExcluded();
  }

  lemma SampleIsKymco()
    ensures MatchesAny("kymco agility 50 ", KymcoPatterns)
  {
    WordAt("kymco agility 50 ", 0, "kymco");
    MatchWitness("kymco agility 50 ", 0, KymcoPatterns, 0);
  }

  lemma SampleIsExcluded()
    ensures MatchesAny("kymco agility 50 ", ExcludePatterns)
  {
    var t := "kymco agility 50 ";
    assert t[6..13] == "agility" && SkipDashesOrSpaces(t, 13) == 14 && t[14..16] == "50";
    assert MatchEnd(t, 6, ExcludePatterns[0]) == Some(16);
    MatchWitness(t, 6, ExcludePatterns, 0);
  }

  /** get_search_urls over the scraper's query lists, duplicates dropped in order. */
  method GetSearchUrls(q: SearchUrls.QueryLists) returns (uniqueUrls: seq<string>)
    ensures uniqueUrls == Dedup(SearchUrls.ExtendedUrls(Config.AGILITY125, q))
    ensures NoDuplicates(uniqueUrls) && forall u :: u in uniqueUrls <==> u in SearchUrls.ExtendedUrls(Config.AGILITY125, q)
  {
    uniqueUrls := SearchUrls.GetSearchUrlsExtended(Config.AGILITY125, q);
    SearchUrls.ExtendedUrlsProperties(Config.AGILITY125, q);
  }
}
