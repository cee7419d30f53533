/**
 * The Honda PCX125 scraper: which records it keeps (validate_moto_data) and
 * which search URLs it visits (get_search_urls, the extended layout).
 */
module Pcx125Scraper {
  import opened Wrappers
  import opened Text
  import opened Seqs
  import opened Patterns
  import opened Frames
  import Config
  import BaseScraper
  import ListingChecks
  import SearchUrls

  const HondaPatterns: seq<Pattern> := [Pattern(Lit("honda"), []), Pattern(Lit("hond"), [])]

  /** `pcx[\-\s]*125`, `pcx\s*125`, `pcx\s*[\-\.\/]\s*125`, `p[\-\s]*c[\-\s]*x[\-\s]*125` */
  const ModelPatterns: seq<Pattern> := [
    Pattern(Lit("pcx"), [Step(DashesOrSpaces, Lit("125"))]),
    Pattern(Lit("pcx"), [Step(Spaces, Lit("125"))]),
    Pattern(Lit("pcx"), [Step(SpacedPunct, Lit("125"))]),
    Pattern(Lit("p"), [Step(DashesOrSpaces, Lit("c")), Step(DashesOrSpaces, Lit("x")), Step(DashesOrSpaces, Lit("125"))])]

  /** PCX150, PCX160, Forza, any SH, Dylan and XMAX. */
  const ExcludePatterns: seq<Pattern> := [
    Pattern(Lit("pcx"), [Step(DashesOrSpaces, Lit("150"))]),
    Pattern(Lit("pcx"), [Step(DashesOrSpaces, Lit("160"))]),
    Pattern(Lit("forza"), []),
    Pattern(Lit("sh"), [Step(DashesOrSpaces, Digits)]),
    Pattern(Lit("dylan"), []),
    Pattern(Lit("xmax"), [])]

  /** The brand check names Honda only: no model spelling stands for the brand. */
  const Checks := ListingChecks.Checks(HondaPatterns, [], ModelPatterns, ExcludePatterns,
    Config.PCX125.precioMin, Config.PCX125.precioMax, Config.PCX125.anioMin, Config.PCX125.anioMax)

  predicate ValidateMotoData(r: Row, repr: real -> string) {
    ListingChecks.Validate(r, Checks, repr)
  }

  /**
   * On an extracted record: a Honda PCX125 that is no excluded model, priced
   * in [1200, 4000] or unpriced, of a year in [2016, 2025] or of none.
   */
  lemma ExtractedRecordValid(url: string, p: BaseScraper.Page, now: string, repr: real -> string)
    ensures var t := Lower(BaseScraper.Titulo(p.titleTexts)) + " ";
      ValidateMotoData(BaseScraper.AnuncioData(url, p, now), repr) <==>
        MatchesAny(t, HondaPatterns) && MatchesAny(t, ModelPatterns) && !MatchesAny(t, ExcludePatterns)
        && ListingChecks.PriceWithin(BaseScraper.Precio(p.priceElements, p.fallbackPrices), 1200, 4000)
        && ListingChecks.YearWithin(BaseScraper.AnioOf(p.titleYears, p.pageYears), 2016, 2025)
  {
    ListingChecks.ExtractedRecordValid(url, p, now, Checks, repr);
  }

  /** Unlike the CB125R scraper's, this brand check rejects a bare model name. */
  lemma BareModelIsNotHonda()
    ensures !ListingChecks.IsBrand("pcx 125 ", Checks)
  {
    NoHondaWithoutH("pcx 125 ");
    assert Checks.inferred == [];
  }

  /** A text without the letter h names no Honda. */
  lemma NoHondaWithoutH(t: string)
    requires 'h' !in t
    ensures !MatchesAny(t, HondaPatterns)
  {
    forall k | 0 <= k < |HondaPatterns| ensures !Matches(t, HondaPatterns[k]) {
      NoMatchWithoutChar(t, HondaPatterns[k], 0);
    }
  }

  /** An SH named beside the PCX125 rejects the text. */
  lemma ExcludedDespiteModel()
    ensures ListingChecks.IsBrand("honda pcx125 sh125 ", Checks) && MatchesAny("honda pcx125 sh125 ", ModelPatterns)
      && MatchesAny("honda pcx125 sh125 ", ExcludePatterns)
  {
    SampleIsHonda();
    SampleIsModel();
    SampleIsExcluded();
  }

  lemma SampleIsHonda()
    ensures MatchesAny("honda pcx125 sh125 ", HondaPatterns)
  {
    WordAt("honda pcx125 sh125 ", 0, "honda");
    MatchWitness("honda pcx125 sh125 ", 0, HondaPatterns, 0);
  }

  lemma SampleIsModel()
    ensures MatchesAny("honda pcx125 sh125 ", ModelPatterns)
  {
    var t := "honda pcx125 sh125 ";
    assert t[6..9] == "pcx" && SkipDashesOrSpaces(t, 9) == 9 && t[9..12] == "125";
    assert MatchEnd(t, 6, ModelPatterns[0]) == Some(12);
    MatchWitness(t, 6, ModelPatterns, 0);
  }

  lemma SampleIsExcluded()
    ensures MatchesAny("honda pcx125 sh125 ", ExcludePatterns)
  {
    var t := "honda pcx125 sh125 ";
    assert t[13..15] == "sh" && SkipDashesOrSpaces(t, 15) == 15 && SkipDigits(t, 15) == 18;
    assert MatchEnd(t, 13, ExcludePatterns[3]) == Some(18);
    MatchWitness(t, 13, ExcludePatterns, 3);
  }

  /** get_search_urls over the scraper's query lists, duplicates dropped in order. */
  method GetSearchUrls(q: SearchUrls.QueryLists) returns (uniqueUrls: seq<string>)
    ensures uniqueUrls == Dedup(SearchUrls.ExtendedUrls(Config.PCX125, q))
    ensures NoDuplicates(uniqueUrls) && forall u :: u in uniqueUrls <==> u in SearchUrls.ExtendedUrls(Config.PCX125, q)
  {
    uniqueUrls := SearchUrls.GetSearchUrlsExtended(Config.PCX125, q);
    SearchUrls.ExtendedUrlsProperties(Config.PCX125, q);
  }
}
