/**
 * The browser-independent core of BaseScraper: which links are listings,
 * how each field of a listing is picked from the texts a page offers and
 * written out, and the `results` / `processed_urls` accumulation of a run.
 *
 * A listing page is given as a Page value: the texts the CSS selectors find,
 * in selector order, and the values the fixed regular expressions find in
 * them, in pattern order. What the scraper then does with those is modelled.
 */
module BaseScraper {
  import opened Wrappers
  import opened Text
  import opened Seqs
  import opened Patterns
  import opened Frames
  import Cleaner
  import Scorer
  import Config

  const NoEspecificado := "No especificado"

  // ------------------------------------------------------------------
  // Links
  // ------------------------------------------------------------------

  const ExcludedLinkWords: seq<string> := ["promoted", "destacado", "premium", "banner"]

  /** '/item/' in url or '/product/' in url */
  predicate HasListingPath(url: string) {
    Contains(url, "/item/") || Contains(url, "/product/")
  }

  /** is_valid_anuncio_link: a listing path and, in any case, none of the advertising words. */
  predicate IsValidAnuncioLink(url: string) {
    url != [] && HasListingPath(url) && !ContainsAny(Lower(url), ExcludedLinkWords)
  }

  /** An advertising word anywhere in the link rejects it. */
  lemma ExcludedWordRejects(a: string, k: nat, b: string)
    requires k < |ExcludedLinkWords|
    ensures !IsValidAnuncioLink(a + ExcludedLinkWords[k] + b)
  {
    var w := ExcludedLinkWords[k];
    assert Lower(w) == w by {
      assert forall i | 0 <= i < |w| :: 'a' <= w[i] <= 'z';
      LowerUnchanged(w);
    }
    LowerConcat(a + w, b);
    LowerConcat(a, w);
    var l := Lower(a + w + b);
    assert l == Lower(a) + w + Lower(b);
    assert l[|a|..|a| + |w|] == w;
    ContainsAt(l, |a|, w);
  }

  /** The test ignores case: an upper-case "PROMOTED" rejects the link too. */
  lemma UpperCaseWordRejects(a: string, b: string)
    ensures !IsValidAnuncioLink(a + "PROMOTED" + b)
  {
    LowerConcat(a + "PROMOTED", b);
    LowerConcat(a, "PROMOTED");
    assert Lower("PROMOTED") == "promoted";
    var l := Lower(a + "PROMOTED" + b);
    assert l == Lower(a) + "promoted" + Lower(b);
    assert l[|a|..|a| + 8] == "promoted";
    ContainsAt(l, |a|, "promoted");
    assert Contains(l, ExcludedLinkWords[0]);
  }

  /**
   * The converse of ExcludedWordRejects: a link with "/item/" in it is
   * accepted exactly when no advertising word occurs in its lower-cased text.
   */
  lemma ItemLinkValidIff(a: string, b: string)
    ensures IsValidAnuncioLink(a + "/item/" + b)
      <==> forall k | 0 <= k < |ExcludedLinkWords| :: !Contains(Lower(a + "/item/" + b), ExcludedLinkWords[k])
  {
    ContainsInfix(a, "/item/", b);
  }

  /** The same for a "/product/" link. */
  lemma ProductLinkValidIff(a: string, b: string)
    ensures IsValidAnuncioLink(a + "/product/" + b)
      <==> forall k | 0 <= k < |ExcludedLinkWords| :: !Contains(Lower(a + "/product/" + b), ExcludedLinkWords[k])
  {
    ContainsInfix(a, "/product/", b);
  }

  /**
   * get_anuncio_links_enhanced on the href attributes the nine selectors
   * return, in order (a missing attribute is the empty string): every href
   * with a listing path, first occurrence only, then the valid ones.
   */
  function CollectedLinks(hrefs: seq<string>): seq<string> {
    Filter(Dedup(Filter(hrefs, HasListingPath)), IsValidAnuncioLink)
  }

  method CollectLinks(hrefs: seq<string>) returns (enlacesValidos: seq<string>)
    ensures enlacesValidos == CollectedLinks(hrefs)
  {
    var enlaces := ListedLinks(hrefs);
    enlacesValidos := ValidLinks(enlaces);
  }

  /** The loop over the hrefs: listing paths, first occurrence only. */
  method ListedLinks(hrefs: seq<string>) returns (enlaces: seq<string>)
    ensures enlaces == Dedup(Filter(hrefs, HasListingPath))
  {
    NoListingPathInEmpty();
    enlaces := FirstMatching(hrefs, HasListingPath);
  }

  lemma NoListingPathInEmpty()
    ensures !HasListingPath([])
  {
    var e: string := [];
    assert !HasAt(e, 0, "/item/") && !HasAt(e, 0, "/product/");
  }

  /** Keeps each non-empty href that `p` accepts, unless already kept. */
  method FirstMatching(hrefs: seq<string>, p: string -> bool) returns (enlaces: seq<string>)
    requires !p([])
    ensures enlaces == Dedup(Filter(hrefs, p))
  {
    enlaces := [];
    var i := 0;
    while i < |hrefs|
      invariant 0 <= i <= |hrefs|
      invariant enlaces == Dedup(Filter(hrefs[..i], p))
    {
      var href := hrefs[i];
      ghost var before := Filter(hrefs[..i], p);
      assert hrefs[..i + 1] == hrefs[..i] + [href];
      FilterSnoc(hrefs[..i], p, href);
      ghost var after := Filter(hrefs[..i + 1], p);
      assert after == before + (if p(href) then [href] else []);
      if p(href) {
        DedupStep(before, href, enlaces);
        assert Dedup(after) == if href in enlaces then enlaces else enlaces + [href];
        assert href != [];
      } else {
        assert after == before;
      }
      if href != [] && p(href) && href !in enlaces {
        enlaces := enlaces + [href];
      }
      assert enlaces == Dedup(after);
      i := i + 1;
    }
    assert hrefs[..i] == hrefs;
  }

  /** The second loop: the links the validity test accepts, in order. */
  method ValidLinks(enlaces: seq<string>) returns (enlacesValidos: seq<string>)
    ensures enlacesValidos == Filter(enlaces, IsValidAnuncioLink)
  {
    enlacesValidos := [];
    var j := 0;
    while j < |enlaces|
      invariant 0 <= j <= |enlaces|
      invariant enlacesValidos == Filter(enlaces[..j], IsValidAnuncioLink)
    {
      assert enlaces[..j + 1] == enlaces[..j] + [enlaces[j]];
      FilterSnoc(enlaces[..j], IsValidAnuncioLink, enlaces[j]);
      if IsValidAnuncioLink(enlaces[j]) {
        enlacesValidos := enlacesValidos + [enlaces[j]];
      }
      j := j + 1;
    }
    assert enlaces[..j] == enlaces;
  }

  /** The collected links are distinct, valid, and exactly the valid hrefs, kept in page order. */
  lemma CollectedLinksProperties(hrefs: seq<string>)
    ensures NoDuplicates(CollectedLinks(hrefs))
    ensures forall u :: u in CollectedLinks(hrefs) <==> u in hrefs && IsValidAnuncioLink(u)
    ensures IsSubseq(CollectedLinks(hrefs), hrefs)
  {
    var listed := Filter(hrefs, HasListingPath);
    var unique := Dedup(listed);
    var r := CollectedLinks(hrefs);
    DedupProperties(listed);
    FilterSubseq(unique, IsValidAnuncioLink);
    KeysIdentity(unique);
    KeysIdentity(r);
    DistinctKeysSubseq(r, unique, Identity);
    assert forall i :: 0 <= i < |r| ==> Identity(r[i]) == r[i];
    forall u ensures u in r <==> u in hrefs && IsValidAnuncioLink(u) {
      FilterMembers(unique, IsValidAnuncioLink, u);
      FilterMembers(hrefs, HasListingPath, u);
    }
    FilterSubseq(hrefs, HasListingPath);
    SubseqTrans(unique, listed, hrefs);
    SubseqTrans(r, unique, hrefs);
  }

  // ------------------------------------------------------------------
  // Candidate values
  // ------------------------------------------------------------------

  /** The values within [lo, hi], in order: the candidate lists the extractors append to. */
  function Within(vs: seq<nat>, lo: nat, hi: nat): (r: seq<nat>)
    ensures |r| <= |vs|
    ensures forall x :: x in r <==> x in vs && lo <= x <= hi
  {
    if vs == [] then []
    else
      var p := vs[..|vs| - 1];
      assert vs == p + [vs[|vs| - 1]];
      Within(p, lo, hi) + (if lo <= vs[|vs| - 1] <= hi then [vs[|vs| - 1]] else [])
  }

  lemma {:induction false} WithinConcat(a: seq<nat>, b: seq<nat>, lo: nat, hi: nat)
    ensures Within(a + b, lo, hi) == Within(a, lo, hi) + Within(b, lo, hi)
    decreases |b|
  {
    if b != [] {
      var b' := b[..|b| - 1];
      assert (a + b)[..|a + b| - 1] == a + b';
      var x := b[|b| - 1];
      assert (a + b)[|a + b| - 1] == x;
      var tail := if lo <= x <= hi then [x] else [];
      assert Within(a + b, lo, hi) == Within(a + b', lo, hi) + tail;
      assert Within(b, lo, hi) == Within(b', lo, hi) + tail;
      WithinConcat(a, b', lo, hi);
    } else {
      assert a + b == a;
    }
  }

  lemma WithinStep(vs: seq<nat>, i: nat, lo: nat, hi: nat)
    requires i < |vs|
    ensures Within(vs[..i + 1], lo, hi) == Within(vs[..i], lo, hi) + (if lo <= vs[i] <= hi then [vs[i]] else [])
  {
    assert vs[..i + 1][..i] == vs[..i];
  }

  /** The first value within [lo, hi]: the loops that return on the first match in range. */
  function FirstInRange(vs: seq<nat>, lo: nat, hi: nat): (r: Option<nat>)
    ensures r.None? <==> forall i | 0 <= i < |vs| :: !(lo <= vs[i] <= hi)
    ensures r.Some? ==> lo <= r.value <= hi
    ensures r.Some? ==> exists i | 0 <= i < |vs| :: vs[i] == r.value && forall j | 0 <= j < i :: !(lo <= vs[j] <= hi)
    decreases |vs|
  {
    if vs == [] then None
    else if lo <= vs[0] <= hi then Some(vs[0])
    else
      var r := FirstInRange(vs[1..], lo, hi);
      assert forall i | 1 <= i < |vs| :: vs[i] == vs[1..][i - 1];
      if r.None? then r
      else
        var i :| 0 <= i < |vs[1..]| && vs[1..][i] == r.value && forall j | 0 <= j < i :: !(lo <= vs[1..][j] <= hi);
        assert vs[i + 1] == r.value;
        r
  }

  /** The first candidate kept is the first value in range. */
  lemma {:induction false} WithinFirst(vs: seq<nat>, lo: nat, hi: nat)
    ensures Within(vs, lo, hi) == [] <==> FirstInRange(vs, lo, hi).None?
    ensures Within(vs, lo, hi) != [] ==> Within(vs, lo, hi)[0] == FirstInRange(vs, lo, hi).value
    decreases |vs|
  {
    if vs != [] {
      var p, x := vs[..|vs| - 1], vs[|vs| - 1];
      assert vs == p + [x];
      WithinFirst(p, lo, hi);
      FirstInRangeSnoc(p, x, lo, hi);
      var w, t := Within(p, lo, hi), if lo <= x <= hi then [x] else [];
      assert Within(vs, lo, hi) == w + t;
      if w != [] {
        assert (w + t)[0] == w[0];
      }
    }
  }

  lemma {:induction false} FirstInRangeSnoc(p: seq<nat>, x: nat, lo: nat, hi: nat)
    ensures FirstInRange(p + [x], lo, hi) ==
      if FirstInRange(p, lo, hi).Some? then FirstInRange(p, lo, hi)
      else if lo <= x <= hi then Some(x) else None
    decreases |p|
  {
    if p != [] {
      assert (p + [x])[0] == p[0];
      assert (p + [x])[1..] == p[1..] + [x];
      FirstInRangeSnoc(p[1..], x, lo, hi);
    }
  }

  /** The largest value of a non-empty list. */
  function MaxOf(vs: seq<nat>): (m: nat)
    requires vs != []
    ensures m in vs
    ensures forall i | 0 <= i < |vs| :: vs[i] <= m
    decreases |vs|
  {
    if |vs| == 1 then vs[0]
    else
      var m := MaxOf(vs[1..]);
      assert forall i | 1 <= i < |vs| :: vs[i] == vs[1..][i - 1];
      if vs[0] >= m then vs[0] else m
  }

  /** All the lists of a list, one after the other, in order. */
  function Flatten(vss: seq<seq<nat>>): (r: seq<nat>)
    decreases |vss|
  {
    if vss == [] then [] else Flatten(vss[..|vss| - 1]) + vss[|vss| - 1]
  }

  lemma FlattenStep(vss: seq<seq<nat>>, i: nat)
    requires i < |vss|
    ensures Flatten(vss[..i + 1]) == Flatten(vss[..i]) + vss[i]
  {
    assert vss[..i + 1][..i] == vss[..i];
  }

  // ------------------------------------------------------------------
  // Price
  // ------------------------------------------------------------------

  /** f"{n:,} €".replace(',', '.') */
  function PriceLabel(n: nat): string {
    Grouped(n) + " \U{20AC}"
  }

  /** text.replace('&nbsp;', ' ').replace('\xa0', ' ').strip() */
  function CleanPriceText(text: string): string {
    Strip(ReplaceChar(ReplaceAll(text, "&nbsp;", " "), '\U{A0}', ' '))
  }

  /**
   * _extract_price_from_text_wallapop. `found` holds the integer values of
   * the six price patterns' matches on the cleaned text, pattern after
   * pattern; the first one within [500, 60000] is written out.
   */
  function PriceFromText(text: string, found: seq<nat>): string {
    if text == [] || CleanPriceText(text) == [] then NoEspecificado
    else
      match FirstInRange(found, 500, 60000)
      case None => NoEspecificado
      case Some(v) => PriceLabel(v)
  }

  /** Written prices read back, through both price parsers, as the value written. */
  lemma PriceLabelReadsBack(n: nat)
    ensures Cleaner.ExtractPriceNumber(PriceLabel(n)) == n as real
    ensures Scorer.PriceValue(PriceLabel(n)) == n as real
  {
    assert Cleaner.Inert(" \U{20AC}");
    Cleaner.ExtractPriceOfGrouped(n, " \U{20AC}");
    Scorer.PriceValueOfGrouped(n, " \U{20AC}");
  }

  lemma PriceLabelIsNotPlaceholder(n: nat)
    ensures PriceLabel(n) != NoEspecificado
  {
    assert IsDigit(PriceLabel(n)[0]);
  }

  /**
   * What _extract_price_from_text_wallapop promises: "No especificado" for
   * blank text or when no value is in range; otherwise the first value in
   * range, written so that the cleaner reads it back unchanged.
   */
  lemma PriceFromTextMeaning(text: string, found: seq<nat>)
    ensures PriceFromText(text, found) == NoEspecificado <==>
      CleanPriceText(text) == [] || forall i | 0 <= i < |found| :: !(500 <= found[i] <= 60000)
    ensures PriceFromText(text, found) != NoEspecificado ==>
      exists i | 0 <= i < |found| ::
        500 <= found[i] <= 60000 && (forall j | 0 <= j < i :: !(500 <= found[j] <= 60000))
        && PriceFromText(text, found) == PriceLabel(found[i])
        && Cleaner.ExtractPriceNumber(PriceFromText(text, found)) == found[i] as real
  {
    var r := FirstInRange(found, 500, 60000);
    if text == [] {
      assert CleanPriceText(text) == [];
    }
    if r.Some? {
      PriceLabelIsNotPlaceholder(r.value);
      PriceLabelReadsBack(r.value);
    }
  }

  /** f"{v:,}".replace(',', '.') + " €" if v >= 1000 else f"{v} €", the fallback's format. */
  function FallbackLabel(n: nat): string {
    if n >= 1000 then Grouped(n) + " \U{20AC}" else NatToString(n) + " \U{20AC}"
  }

  /** The two price formats agree. */
  lemma FallbackLabelIsPriceLabel(n: nat)
    ensures FallbackLabel(n) == PriceLabel(n)
  {
  }

  /** The fallback's candidates: the in-range values of the first ten elements that mention €. */
  function FallbackCandidates(elements: seq<seq<nat>>): seq<nat> {
    Within(Flatten(if |elements| <= 10 then elements else elements[..10]), 500, 60000)
  }

  function FallbackPriceOf(elements: seq<seq<nat>>): string {
    var c := FallbackCandidates(elements);
    if c == [] then NoEspecificado else FallbackLabel(MaxOf(c))
  }

  /**
   * Strategy 2 of extract_precio_wallapop_robust. Per element, `elements`
   * holds the values of the two fallback patterns' matches (none for an
   * element without text); the largest value in range is written out.
   */
  method FallbackPrice(elements: seq<seq<nat>>) returns (price: string)
    ensures price == FallbackPriceOf(elements)
  {
    var window := if |elements| <= 10 then elements else elements[..10];
    var validPrices: seq<nat> := [];
    var i := 0;
    while i < |window|
      invariant 0 <= i <= |window|
      invariant validPrices == Within(Flatten(window[..i]), 500, 60000)
    {
      var values := window[i];
      var j := 0;
      while j < |values|
        invariant 0 <= j <= |values|
        invariant validPrices == Within(Flatten(window[..i]), 500, 60000) + Within(values[..j], 500, 60000)
      {
        WithinStep(values, j, 500, 60000);
        if 500 <= values[j] <= 60000 {
          validPrices := validPrices + [values[j]];
        }
        j := j + 1;
      }
      assert values[..j] == values;
      FlattenStep(window, i);
      WithinConcat(Flatten(window[..i]), values, 500, 60000);
      i := i + 1;
    }
    assert window[..i] == window;
    if validPrices == [] {
      price := NoEspecificado;
    } else {
      price := FallbackLabel(MaxOf(validPrices));
    }
  }

  /** The fallback writes the largest candidate in range, in the common price format. */
  lemma FallbackPriceMeaning(elements: seq<seq<nat>>)
    ensures FallbackPriceOf(elements) == NoEspecificado <==> FallbackCandidates(elements) == []
    ensures FallbackCandidates(elements) != [] ==>
      var m := MaxOf(FallbackCandidates(elements));
      500 <= m <= 60000 && FallbackPriceOf(elements) == PriceLabel(m)
      && forall x | x in FallbackCandidates(elements) :: x <= m
  {
    var c := FallbackCandidates(elements);
    if c != [] {
      var m := MaxOf(c);
      PriceLabelIsNotPlaceholder(m);
      forall x | x in c ensures x <= m {
        var i :| 0 <= i < |c| && c[i] == x;
      }
    }
  }

  /**
   * Strategy 1: for each element the price selectors find, in order, its
   * stripped text and the price patterns' values on it; the first element
   * that mentions € and yields a price decides.
   */
  function SelectorPrice(elements: seq<(string, seq<nat>)>): (r: Option<string>)
    ensures r.Some? ==> r.value != NoEspecificado
    decreases |elements|
  {
    if elements == [] then None
    else
      var text := Strip(elements[0].0);
      if text != [] && '\U{20AC}' in text && PriceFromText(text, elements[0].1) != NoEspecificado then
        Some(PriceFromText(text, elements[0].1))
      else SelectorPrice(elements[1..])
  }

  /** extract_precio_wallapop_robust: the selector strategy, then the fallback. */
  function Precio(selected: seq<(string, seq<nat>)>, fallback: seq<seq<nat>>): string {
    match SelectorPrice(selected)
    case Some(p) => p
    case None => FallbackPriceOf(fallback)
  }

  /** Whichever strategy decides, the price field is the placeholder or a written value in [500, 60000]. */
  lemma {:induction false} SelectorPriceReadsBack(elements: seq<(string, seq<nat>)>)
    ensures SelectorPrice(elements).Some? ==>
      exists n: nat :: 500 <= n <= 60000 && SelectorPrice(elements).value == PriceLabel(n)
    decreases |elements|
  {
    if elements != [] {
      var text := Strip(elements[0].0);
      var r := FirstInRange(elements[0].1, 500, 60000);
      if text != [] && '\U{20AC}' in text && PriceFromText(text, elements[0].1) != NoEspecificado {
        assert PriceFromText(text, elements[0].1) == PriceLabel(r.value);
      } else {
        SelectorPriceReadsBack(elements[1..]);
      }
    }
  }

  lemma PrecioReadsBack(selected: seq<(string, seq<nat>)>, fallback: seq<seq<nat>>)
    ensures Precio(selected, fallback) == NoEspecificado ||
      exists n: nat :: 500 <= n <= 60000 && Precio(selected, fallback) == PriceLabel(n)
        && Cleaner.ExtractPriceNumber(Precio(selected, fallback)) == n as real
  {
    SelectorPriceReadsBack(selected);
    FallbackPriceMeaning(fallback);
    if SelectorPrice(selected).Some? {
      var n: nat :| 500 <= n <= 60000 && SelectorPrice(selected).value == PriceLabel(n);
      PriceLabelReadsBack(n);
    } else if FallbackCandidates(fallback) != [] {
      PriceLabelReadsBack(MaxOf(FallbackCandidates(fallback)));
    }
  }

  // ------------------------------------------------------------------
  // Mileage
  // ------------------------------------------------------------------

  /**
   * A value of xs that occurs in c at least as often as every other value
   * of xs: max(set(c), key=c.count) when xs is c. Among tied values the
   * model takes the earliest; Python's pick depends on set order.
   */
  function MostFrequent(c: seq<nat>, xs: seq<nat>): (m: nat)
    requires xs != []
    ensures m in xs
    ensures forall i | 0 <= i < |xs| :: multiset(c)[xs[i]] <= multiset(c)[m]
    decreases |xs|
  {
    if |xs| == 1 then xs[0]
    else
      var m := MostFrequent(c, xs[1..]);
      assert forall i | 1 <= i < |xs| :: xs[i] == xs[1..][i - 1];
      if multiset(c)[xs[0]] >= multiset(c)[m] then xs[0] else m
  }

  /** "0 km", f"{n} km" below one thousand, f"{n:,} km".replace(',', '.') otherwise. */
  function KmLabel(n: nat): string {
    if n == 0 then "0 km" else if n < 1000 then NatToString(n) + " km" else Grouped(n) + " km"
  }

  /** The three branches write the same thing: the dot-grouped number and " km". */
  lemma KmLabelIsGrouped(n: nat)
    ensures KmLabel(n) == Grouped(n) + " km"
  {
    if n == 0 {
      assert NatToString(0) == "0";
    }
  }

  /** A written mileage reads back as its value through the calculator and the cleaner. */
  lemma KmLabelReadsBack(n: nat)
    requires n <= 200000
    ensures Scorer.KmValueAsWritten(KmLabel(n)) == n as real && Scorer.KmValue(KmLabel(n)) == n as real
    ensures Cleaner.ExtractKmNumber(KmLabel(n)) == n as real
  {
    KmLabelIsGrouped(n);
    KmLabelCalculator(n);
    KmLabelCleaner(n);
  }

  lemma KmLabelCalculator(n: nat)
    ensures Scorer.KmValueAsWritten(Grouped(n) + " km") == n as real && Scorer.KmValue(Grouped(n) + " km") == n as real
  {
    Scorer.KmValueOfGrouped(n);
  }

  lemma KmLabelCleaner(n: nat)
    requires n <= 200000
    ensures Cleaner.ExtractKmNumber(Grouped(n) + " km") == n as real
  {
    assert Cleaner.Inert(" km");
    Cleaner.ExtractKmOfGrouped(n, " km");
  }

  function KilometrajeOf(found: seq<nat>): string {
    var c := Within(found, 0, 200000);
    if c == [] then NoEspecificado else KmLabel(MostFrequent(c, c))
  }

  /**
   * extract_kilometraje_wallapop_fixed from the values its nine patterns
   * find on the page: the candidates within [0, 200000], then the most
   * frequent one written out.
   */
  method ExtractKilometraje(found: seq<nat>) returns (km: string)
    ensures km == KilometrajeOf(found)
  {
    var candidates: seq<nat> := [];
    var i := 0;
    while i < |found|
      invariant 0 <= i <= |found|
      invariant candidates == Within(found[..i], 0, 200000)
    {
      WithinStep(found, i, 0, 200000);
      if found[i] <= 200000 {
        candidates := candidates + [found[i]];
      }
      i := i + 1;
    }
    assert found[..i] == found;
    if candidates == [] {
      km := NoEspecificado;
    } else {
      km := KmLabel(MostFrequent(candidates, candidates));
    }
  }

  /**
   * "No especificado" exactly when no value is in range; otherwise a most
   * frequent candidate, written so that the calculator reads it back.
   */
  lemma KilometrajeMeaning(found: seq<nat>)
    ensures KilometrajeOf(found) == NoEspecificado <==> forall i | 0 <= i < |found| :: found[i] > 200000
    ensures KilometrajeOf(found) != NoEspecificado ==>
      var c := Within(found, 0, 200000);
      exists v :: v in found && v <= 200000 && KilometrajeOf(found) == KmLabel(v)
        && Scorer.KmValue(KilometrajeOf(found)) == v as real
        && forall w | w in c :: multiset(c)[w] <= multiset(c)[v]
  {
    var c := Within(found, 0, 200000);
    if c == [] {
      forall i | 0 <= i < |found| ensures found[i] > 200000 {
        assert found[i] in found;
      }
    } else {
      var v := MostFrequent(c, c);
      KmLabelIsGrouped(v);
      assert KmLabel(v)[0] != 'N' by { assert IsDigit(Grouped(v)[0]); }
      KmLabelReadsBack(v);
      forall w | w in c ensures multiset(c)[w] <= multiset(c)[v] {
        var i :| 0 <= i < |c| && c[i] == w;
      }
    }
  }

  // ------------------------------------------------------------------
  // Year
  // ------------------------------------------------------------------

  datatype YearCandidate = YearCandidate(year: nat, weight: nat)

  const TitleWeight: nat := 10
  const BodyWeight: nat := 1

  function Weighted(years: seq<nat>, w: nat): (r: seq<YearCandidate>)
    ensures |r| == |years| && forall i | 0 <= i < |years| :: r[i] == YearCandidate(years[i], w)
  {
    seq(|years|, i requires 0 <= i < |years| => YearCandidate(years[i], w))
  }

  /** The year candidates, title ones first, each within [2010, 2025]. */
  function YearCandidates(titleFound: seq<nat>, bodyFound: seq<nat>): seq<YearCandidate> {
    Weighted(Within(titleFound, 2010, 2025), TitleWeight) + Weighted(Within(bodyFound, 2010, 2025), BodyWeight)
  }

  /** Inserts x before the first element that weighs no more than it does. */
  function InsertByWeight(x: YearCandidate, t: seq<YearCandidate>): (r: seq<YearCandidate>)
    ensures |r| == |t| + 1
    ensures multiset(r) == multiset(t) + multiset{x}
    decreases |t|
  {
    if t == [] || t[0].weight <= x.weight then [x] + t
    else
      var r := [t[0]] + InsertByWeight(x, t[1..]);
      assert t == [t[0]] + t[1..];
      r
  }

  /** list.sort(key=weight, reverse=True): by weight, heaviest first, stable among equal weights. */
  function SortByWeight(s: seq<YearCandidate>): (r: seq<YearCandidate>)
    ensures |r| == |s|
    ensures multiset(r) == multiset(s)
    decreases |s|
  {
    if s == [] then []
    else
      assert s == [s[0]] + s[1..];
      InsertByWeight(s[0], SortByWeight(s[1..]))
  }

  /** The reference for the head of that sort: the first candidate of the greatest weight. */
  function Top(s: seq<YearCandidate>): (t: YearCandidate)
    requires s != []
    ensures t in s
    ensures forall i | 0 <= i < |s| :: s[i].weight <= t.weight
    ensures exists i | 0 <= i < |s| :: s[i] == t && forall j | 0 <= j < i :: s[j].weight < t.weight
    decreases |s|
  {
    if |s| == 1 then s[0]
    else
      var t := Top(s[1..]);
      assert forall i | 1 <= i < |s| :: s[i] == s[1..][i - 1];
      if s[0].weight >= t.weight then s[0]
      else
        var i :| 0 <= i < |s[1..]| && s[1..][i] == t && forall j | 0 <= j < i :: s[1..][j].weight < t.weight;
        assert s[i + 1] == t;
        t
  }

  /** After the stable sort the first candidate is the first one of the greatest weight. */
  lemma {:induction false} SortedHeadIsTop(s: seq<YearCandidate>)
    requires s != []
    ensures SortByWeight(s)[0] == Top(s)
    decreases |s|
  {
    if |s| > 1 {
      SortedHeadIsTop(s[1..]);
    }
  }

  /** A candidate at least as heavy as all others, standing first, is the top. */
  lemma TopIsFirstWhenHeaviest(s: seq<YearCandidate>)
    requires s != [] && forall i | 0 <= i < |s| :: s[i].weight <= s[0].weight
    ensures Top(s) == s[0]
  {
    var t := Top(s);
    var i :| 0 <= i < |s| && s[i] == t && forall j | 0 <= j < i :: s[j].weight < t.weight;
    assert s[0].weight < t.weight || i == 0;
  }

  function AnioOf(titleFound: seq<nat>, bodyFound: seq<nat>): string {
    var c := YearCandidates(titleFound, bodyFound);
    if c == [] then NoEspecificado else NatToString(SortByWeight(c)[0].year)
  }

  /**
   * extract_año_wallapop_fixed from the values its seven patterns find in
   * the lower-cased title and in the lower-cased page, in that order.
   */
  method ExtractAnio(titleFound: seq<nat>, bodyFound: seq<nat>) returns (anio: string)
    ensures anio == AnioOf(titleFound, bodyFound)
  {
    var candidates: seq<YearCandidate> := [];
    var i := 0;
    while i < |titleFound|
      invariant 0 <= i <= |titleFound|
      invariant candidates == Weighted(Within(titleFound[..i], 2010, 2025), TitleWeight)
    {
      WithinStep(titleFound, i, 2010, 2025);
      if 2010 <= titleFound[i] <= 2025 {
        candidates := candidates + [YearCandidate(titleFound[i], TitleWeight)];
      }
      i := i + 1;
    }
    assert titleFound[..i] == titleFound;
    ghost var fromTitle := candidates;
    var j := 0;
    while j < |bodyFound|
      invariant 0 <= j <= |bodyFound|
      invariant candidates == fromTitle + Weighted(Within(bodyFound[..j], 2010, 2025), BodyWeight)
    {
      WithinStep(bodyFound, j, 2010, 2025);
      if 2010 <= bodyFound[j] <= 2025 {
        candidates := candidates + [YearCandidate(bodyFound[j], BodyWeight)];
      }
      j := j + 1;
    }
    assert bodyFound[..j] == bodyFound;
    if candidates == [] {
      anio := NoEspecificado;
    } else {
      var sorted := SortByWeight(candidates);
      anio := NatToString(sorted[0].year);
    }
  }

  /**
   * Any year in range found in the title beats every year found in the
   * page, and among years of the same source the first one found wins.
   */
  lemma TitleYearWins(titleFound: seq<nat>, bodyFound: seq<nat>)
    ensures FirstInRange(titleFound, 2010, 2025).Some? ==>
      AnioOf(titleFound, bodyFound) == NatToString(FirstInRange(titleFound, 2010, 2025).value)
    ensures FirstInRange(titleFound, 2010, 2025).None? && FirstInRange(bodyFound, 2010, 2025).Some? ==>
      AnioOf(titleFound, bodyFound) == NatToString(FirstInRange(bodyFound, 2010, 2025).value)
    ensures FirstInRange(titleFound, 2010, 2025).None? && FirstInRange(bodyFound, 2010, 2025).None? ==>
      AnioOf(titleFound, bodyFound) == NoEspecificado
  {
    var t, b := Within(titleFound, 2010, 2025), Within(bodyFound, 2010, 2025);
    WithinFirst(titleFound, 2010, 2025);
    WithinFirst(bodyFound, 2010, 2025);
    if t != [] || b != [] {
      HeaviestFirst(t, b);
    }
  }

  /** The sorted candidates start with the first title year, or else with the first page year. */
  lemma HeaviestFirst(t: seq<nat>, b: seq<nat>)
    requires t != [] || b != []
    ensures SortByWeight(Weighted(t, TitleWeight) + Weighted(b, BodyWeight))[0].year == if t != [] then t[0] else b[0]
  {
    var c := Weighted(t, TitleWeight) + Weighted(b, BodyWeight);
    SortedHeadIsTop(c);
    if t != [] {
      assert c[0] == YearCandidate(t[0], TitleWeight);
      forall i | 0 <= i < |c| ensures c[i].weight <= c[0].weight {
        if i >= |t| { assert c[i] == Weighted(b, BodyWeight)[i - |t|]; }
      }
      TopIsFirstWhenHeaviest(c);
    } else {
      assert c == Weighted(b, BodyWeight);
      TopIsFirstWhenHeaviest(c);
    }
  }

  /** Every candidate year lies in [2010, 2025]. */
  lemma CandidateYearsInRange(titleFound: seq<nat>, bodyFound: seq<nat>, x: YearCandidate)
    requires x in YearCandidates(titleFound, bodyFound)
    ensures 2010 <= x.year <= 2025
  {
    var t, b := Within(titleFound, 2010, 2025), Within(bodyFound, 2010, 2025);
    var c := YearCandidates(titleFound, bodyFound);
    var k :| 0 <= k < |c| && c[k] == x;
    if k < |t| {
      assert x.year == t[k] && t[k] in t;
    } else {
      assert c[k] == Weighted(b, BodyWeight)[k - |t|];
      assert x.year == b[k - |t|] && b[k - |t|] in b;
    }
  }

  /** A written year reads back through the calculator's year reader. */
  lemma AnioReadsBack(titleFound: seq<nat>, bodyFound: seq<nat>, currentYear: nat)
    requires currentYear >= 2024
    ensures AnioOf(titleFound, bodyFound) == NoEspecificado ||
      exists y: nat :: 2010 <= y <= 2025 && AnioOf(titleFound, bodyFound) == NatToString(y)
        && Scorer.YearValue(AnioOf(titleFound, bodyFound), currentYear) == y
  {
    var c := YearCandidates(titleFound, bodyFound);
    if c != [] {
      SortedHeadIsTop(c);
      var x := Top(c);
      CandidateYearsInRange(titleFound, bodyFound, x);
      Scorer.FirstYearDecides(x.year, "", currentYear);
      assert NatToString(x.year) + "" == NatToString(x.year);
    }
  }

  // ------------------------------------------------------------------
  // Texts picked by selectors: title, seller, location, publication date
  // ------------------------------------------------------------------

  /** The first selector text that, stripped, is longer than minLen characters. */
  function FirstText(texts: seq<string>, minLen: nat): (r: Option<string>)
    ensures r.None? <==> forall i | 0 <= i < |texts| :: |Strip(texts[i])| <= minLen
    ensures r.Some? ==> |r.value| > minLen && exists i | 0 <= i < |texts| ::
      r.value == Strip(texts[i]) && forall j | 0 <= j < i :: |Strip(texts[j])| <= minLen
    decreases |texts|
  {
    if texts == [] then None
    else if |Strip(texts[0])| > minLen then Some(Strip(texts[0]))
    else
      var r := FirstText(texts[1..], minLen);
      assert forall i | 1 <= i < |texts| :: texts[i] == texts[1..][i - 1];
      if r.None? then r
      else
        var i :| 0 <= i < |texts[1..]| && r.value == Strip(texts[1..][i])
          && forall j | 0 <= j < i :: |Strip(texts[1..][j])| <= minLen;
        assert texts[i + 1] == texts[1..][i];
        r
  }

  /**
   * extract_titulo_wallapop_fixed on the texts of its ten selectors and then
   * of every h1: the first stripped text of more than five characters.
   */
  function Titulo(texts: seq<string>): string {
    match FirstText(texts, 5)
    case None => "Sin t\U{ED}tulo"
    case Some(t) => t
  }

  /** extract_fecha_publicacion_wallapop_fixed: the first non-blank date text. */
  function FechaPublicacion(texts: seq<string>): string {
    match FirstText(texts, 0)
    case None => NoEspecificado
    case Some(t) => t
  }

  /** extract_ubicacion_wallapop_fixed: the first non-blank location, without "en " and "En ". */
  function Ubicacion(texts: seq<string>): string {
    match FirstText(texts, 0)
    case None => NoEspecificado
    case Some(t) => ReplaceAll(ReplaceAll(t, "en ", ""), "En ", "")
  }

  /** A location written "en <place>" comes out as the place. */
  lemma UbicacionDropsPrefix(place: string)
    requires place != [] && !IsSpace(place[|place| - 1])
    requires !Contains(place, "en ") && !Contains(place, "En ")
    ensures Ubicacion(["en " + place]) == place
  {
    var t := "en " + place;
    assert StripLeft(t) == t;
    assert t[|t| - 1] == place[|place| - 1];
    assert Strip(t) == t;
    assert FirstText([t], 0) == Some(t);
    ReplaceFront("en ", place, "");
    ReplaceAbsent(place, "en ", "");
    assert ReplaceAll(t, "en ", "") == place;
    ReplaceAbsent(place, "En ", "");
  }

  const SellerKeywords: seq<string> := [
    "s.l.", "sl", "s.a.", "sa", "s.l.u.", "slu",
    "sociedad", "empresa", "compa\U{F1}ia", "cia",
    "concesionario", "taller", "motor", "moto", "auto",
    "dealership", "dealer", "garage", "workshop",
    "honda", "yamaha", "kawasaki", "suzuki", "bmw",
    "ktm", "ducati", "triumph", "harley",
    "mundimoto", "motocity", "motocard", "motoplanet",
    "bergmann", "voge", "rieju", "gasgas",
    "venta", "ventas", "comercial", "importador",
    "distribuidor", "mayorista", "tienda", "shop"]

  /** `\bS\.?L\.?\b`, `\bS\.?A\.?\b`, `\bLtd\.?\b` and `\b\d{3}[\-\s]*\d{3}[\-\s]*\d{3}\b`, on the text as found. */
  const SellerPatterns: seq<Pattern> := Cleaner.UpperCasePatterns + [
    Pattern(DigitsN(3), [Step(DashesOrSpaces, DigitsN(3)), Step(DashesOrSpaces, DigitsN(3))])]

  /** A keyword in the lower-cased text, or a company suffix, phone number, '@' or 'www.' in the text itself. */
  predicate SellerIsCommercial(t: string) {
    ContainsAny(Lower(t), SellerKeywords) || MatchesAny(t, SellerPatterns) || Contains(t, "@") || Contains(t, "www.")
  }

  /** extract_vendedor_wallapop_fixed on the texts of its eight selectors. */
  function Vendedor(texts: seq<string>): string {
    match FirstText(texts, 0)
    case None => "Particular"
    case Some(t) => if SellerIsCommercial(t) then "Comercial: " + t else t
  }

  /**
   * A seller whose text holds a business word anywhere, in any case (brand
   * names such as "KTM" included), is labelled a business.
   */
  lemma KeywordSellerLabelled(texts: seq<string>, a: string, w: string, k: nat, b: string)
    requires k < |SellerKeywords| && Lower(w) == SellerKeywords[k]
    requires FirstText(texts, 0) == Some(a + w + b)
    ensures Vendedor(texts) == "Comercial: " + (a + w + b)
  {
    LowerConcat(a + w, b);
    LowerConcat(a, w);
    ContainsInfix(Lower(a), Lower(w), Lower(b));
  }

  /**
   * The label reaches the cleaner: "comercial" holds the cleaner's business
   * word "cia", so every seller the scraper marks as a business is dropped by
   * the cleaner's seller filter, as written and corrected, whatever the seller's name.
   */
  lemma LabelledSellerFiltered(texts: seq<string>, repr: real -> string)
    requires FirstText(texts, 0).Some? && SellerIsCommercial(FirstText(texts, 0).value)
    ensures Cleaner.IsCommercialAsWritten(Text(Vendedor(texts)), repr) && Cleaner.IsCommercial(Text(Vendedor(texts)), repr)
  {
    LabelFiltered(FirstText(texts, 0).value, repr);
  }

  lemma LabelFiltered(t: string, repr: real -> string)
    ensures Cleaner.IsCommercialAsWritten(Text("Comercial: " + t), repr) && Cleaner.IsCommercial(Text("Comercial: " + t), repr)
  {
    var v := "Comercial: " + t;
    LowerConcat("Comercial: ", t);
    assert Lower("Comercial: ") == "comercial: ";
    var l := Lower(v);
    assert l[5..8] == "cia";
    assert Config.ComercialesKeywords[16] == "cia";
    ContainsAt(l, 5, "cia");
    assert Frames.PresentText(Text(v), repr) == Some(v);
  }

  // ------------------------------------------------------------------
  // One listing
  // ------------------------------------------------------------------

  /**
   * What a listing page offers the extractors: per field, the texts its
   * selectors find, in selector order, and the values the field's regular
   * expressions find, in pattern order (for the year, in the title and then
   * in the whole page).
   */
  datatype Page = Page(
    titleTexts: seq<string>,
    priceElements: seq<(string, seq<nat>)>,
    fallbackPrices: seq<seq<nat>>,
    kmFound: seq<nat>,
    titleYears: seq<nat>,
    pageYears: seq<nat>,
    sellerTexts: seq<string>,
    locationTexts: seq<string>,
    dateTexts: seq<string>)

  /** The keys of the record extract_anuncio_data_enhanced builds, in order. */
  const DataColumns: seq<string> := ["URL", "T\U{ED}tulo", "Precio", "Kilometraje", "A\U{F1}o", "Vendedor",
    "Ubicaci\U{F3}n", "Fecha_Publicacion", "Fecha_Extraccion"]

  /** The record of one listing, from its nine field values. */
  function Record(url: string, titulo: string, precio: string, km: string, anio: string, vendedor: string,
                  ubicacion: string, fecha: string, now: string): Row
  {
    map[
      "URL" := Text(url),
      "T\U{ED}tulo" := Text(titulo),
      "Precio" := Text(precio),
      "Kilometraje" := Text(km),
      "A\U{F1}o" := Text(anio),
      "Vendedor" := Text(vendedor),
      "Ubicaci\U{F3}n" := Text(ubicacion),
      "Fecha_Publicacion" := Text(fecha),
      "Fecha_Extraccion" := Text(now)]
  }

  /** extract_anuncio_data_enhanced; `now` is the extraction time stamp, already formatted. */
  function AnuncioData(url: string, p: Page, now: string): Row {
    Record(url, Titulo(p.titleTexts), Precio(p.priceElements, p.fallbackPrices), KilometrajeOf(p.kmFound),
      AnioOf(p.titleYears, p.pageYears), Vendedor(p.sellerTexts), Ubicacion(p.locationTexts),
      FechaPublicacion(p.dateTexts), now)
  }

  method ExtractAnuncio(url: string, p: Page, now: string) returns (data: Row)
    ensures data == AnuncioData(url, p, now)
  {
    var precio: string;
    match SelectorPrice(p.priceElements) {
      case Some(q) => precio := q;
      case None => precio := FallbackPrice(p.fallbackPrices);
    }
    var km := ExtractKilometraje(p.kmFound);
    var anio := ExtractAnio(p.titleYears, p.pageYears);
    data := Record(url, Titulo(p.titleTexts), precio, km, anio, Vendedor(p.sellerTexts),
      Ubicacion(p.locationTexts), FechaPublicacion(p.dateTexts), now);
  }

  /** The URL a record carries, or "" when it has none. */
  function UrlOf(r: Row): string {
    if "URL" in r && r["URL"].Text? then r["URL"].s else ""
  }

  /** A record has exactly the nine fields, and carries the link it was read from. */
  lemma RecordShape(url: string, titulo: string, precio: string, km: string, anio: string, vendedor: string,
                    ubicacion: string, fecha: string, now: string)
    ensures var r := Record(url, titulo, precio, km, anio, vendedor, ubicacion, fecha, now);
      RowFits(r, DataColumns) && UrlOf(r) == url
  {
    var r := Record(url, titulo, precio, km, anio, vendedor, ubicacion, fecha, now);
    forall i | 1 <= i < |DataColumns| ensures DataColumns[i] != "URL" {
      assert |DataColumns[i]| != 3 || DataColumns[i][0] != 'U';
    }
    assert r.Keys == set c | c in DataColumns;
  }

  /** The fields the validators read back. A record never has a description. */
  lemma RecordFields(url: string, titulo: string, precio: string, km: string, anio: string, vendedor: string,
                     ubicacion: string, fecha: string, now: string)
    ensures var r := Record(url, titulo, precio, km, anio, vendedor, ubicacion, fecha, now);
      "Descripcion" !in r && r["T\U{ED}tulo"] == Text(titulo) && r["Precio"] == Text(precio) && r["A\U{F1}o"] == Text(anio)
  {
    RecordLacksDescription(url, titulo, precio, km, anio, vendedor, ubicacion, fecha, now);
    RecordTitulo(url, titulo, precio, km, anio, vendedor, ubicacion, fecha, now);
    RecordPrecio(url, titulo, precio, km, anio, vendedor, ubicacion, fecha, now);
    RecordAnio(url, titulo, precio, km, anio, vendedor, ubicacion, fecha, now);
  }

  lemma RecordLacksDescription(url: string, titulo: string, precio: string, km: string, anio: string, vendedor: string,
                     ubicacion: string, fecha: string, now: string)
    ensures "Descripcion" !in Record(url, titulo, precio, km, anio, vendedor, ubicacion, fecha, now)
  {
    RecordShape(url, titulo, precio, km, anio, vendedor, ubicacion, fecha, now);
    forall i | 0 <= i < |DataColumns| ensures DataColumns[i] != "Descripcion" {
      assert |DataColumns[i]| != 11 || DataColumns[i][0] != 'D';
    }
  }

  lemma RecordTitulo(url: string, titulo: string, precio: string, km: string, anio: string, vendedor: string,
                     ubicacion: string, fecha: string, now: string)
    ensures Record(url, titulo, precio, km, anio, vendedor, ubicacion, fecha, now)["T\U{ED}tulo"] == Text(titulo)
  {
    forall i | 0 <= i < |DataColumns| && i != 1 ensures DataColumns[i] != "T\U{ED}tulo" {
      assert |DataColumns[i]| != 6 || DataColumns[i][0] != 'T';
    }
  }

  lemma RecordPrecio(url: string, titulo: string, precio: string, km: string, anio: string, vendedor: string,
                     ubicacion: string, fecha: string, now: string)
    ensures Record(url, titulo, precio, km, anio, vendedor, ubicacion, fecha, now)["Precio"] == Text(precio)
  {
    forall i | 0 <= i < |DataColumns| && i != 2 ensures DataColumns[i] != "Precio" {
      assert |DataColumns[i]| != 6 || DataColumns[i][0] != 'P';
    }
  }

  lemma RecordAnio(url: string, titulo: string, precio: string, km: string, anio: string, vendedor: string,
                     ubicacion: string, fecha: string, now: string)
    ensures Record(url, titulo, precio, km, anio, vendedor, ubicacion, fecha, now)["A\U{F1}o"] == Text(anio)
  {
    forall i | 0 <= i < |DataColumns| && i != 4 ensures DataColumns[i] != "A\U{F1}o" {
      assert |DataColumns[i]| != 3 || DataColumns[i][0] != 'A';
    }
  }

  lemma AnuncioDataShape(url: string, p: Page, now: string)
    ensures RowFits(AnuncioData(url, p, now), DataColumns)
    ensures UrlOf(AnuncioData(url, p, now)) == url
  {
    RecordShape(url, Titulo(p.titleTexts), Precio(p.priceElements, p.fallbackPrices), KilometrajeOf(p.kmFound),
      AnioOf(p.titleYears, p.pageYears), Vendedor(p.sellerTexts), Ubicacion(p.locationTexts),
      FechaPublicacion(p.dateTexts), now);
  }

  lemma DataColumnsDistinct()
    ensures NoDuplicates(DataColumns)
  {
    var l := DataColumns;
    forall i, j | 0 <= i < j < |l| ensures l[i] != l[j] {
      assert |l[i]| != |l[j]| || l[i][0] != l[j][0];
    }
  }

  // ------------------------------------------------------------------
  // results and processed_urls
  // ------------------------------------------------------------------

  datatype Accumulated = Accumulated(results: seq<Row>, processed: set<string>)

  /** The URLs of the kept records. */
  function UrlsOf(results: seq<Row>): set<string> {
    set i | 0 <= i < |results| :: UrlOf(results[i])
  }

  /**
   * The state invariant: processed_urls is exactly the set of the kept
   * records' URLs, no URL is kept twice, and every record has the nine fields.
   */
  ghost predicate Coherent(acc: Accumulated) {
    acc.processed == UrlsOf(acc.results)
    && (forall i, j | 0 <= i < j < |acc.results| :: UrlOf(acc.results[i]) != UrlOf(acc.results[j]))
    && forall i | 0 <= i < |acc.results| :: RowFits(acc.results[i], DataColumns)
  }

  /**
   * The record a link yields and the validator keeps: None when loading or
   * reading the page fails (`pages` gives None) or when the model's
   * validator rejects the record.
   */
  function Kept(u: string, pages: string -> Option<Page>, validate: Row -> bool, now: string): Option<Row> {
    match pages(u)
    case None => None
    case Some(p) => var d := AnuncioData(u, p, now); if validate(d) then Some(d) else None
  }

  function Keep(pages: string -> Option<Page>, validate: Row -> bool, now: string): string -> Option<Row> {
    u => Kept(u, pages, validate, now)
  }

  /** What a link yields is a record of the nine fields carrying that link. */
  ghost predicate ReadsOwnUrl(read: string -> Option<Row>) {
    forall u | read(u).Some? :: UrlOf(read(u).value) == u && RowFits(read(u).value, DataColumns)
  }

  /** Keep yields exactly the validated records, and each carries its own link. */
  lemma KeepMeaning(pages: string -> Option<Page>, validate: Row -> bool, now: string)
    ensures ReadsOwnUrl(Keep(pages, validate, now))
    ensures forall u :: Keep(pages, validate, now)(u).Some? <==>
      pages(u).Some? && validate(AnuncioData(u, pages(u).value, now))
    ensures forall u | Keep(pages, validate, now)(u).Some? ::
      Keep(pages, validate, now)(u).value == AnuncioData(u, pages(u).value, now)
  {
    forall u | pages(u).Some? {
      AnuncioDataShape(u, pages(u).value, now);
    }
  }

  /** A turn of the visit on a link whose page reads as `p`, or fails to read. */
  lemma VisitPage(acc: Accumulated, u: string, pages: string -> Option<Page>, validate: Row -> bool, now: string)
    ensures pages(u).None? ==> VisitLink(acc, u, Keep(pages, validate, now)) == acc
    ensures pages(u).Some? && u !in acc.processed ==>
      var d := AnuncioData(u, pages(u).value, now);
      VisitLink(acc, u, Keep(pages, validate, now))
        == if validate(d) then Accumulated(acc.results + [d], acc.processed + {u}) else acc
  {
  }

  /** One turn of the loop in process_search_url_extended: a processed link is skipped. */
  function VisitLink(acc: Accumulated, u: string, read: string -> Option<Row>): Accumulated {
    if u in acc.processed then acc
    else
      match read(u)
      case None => acc
      case Some(d) => Accumulated(acc.results + [d], acc.processed + {u})
  }

  function VisitLinks(acc: Accumulated, links: seq<string>, read: string -> Option<Row>): Accumulated
    decreases |links|
  {
    if links == [] then acc
    else VisitLink(VisitLinks(acc, links[..|links| - 1], read), links[|links| - 1], read)
  }

  lemma VisitLinksStep(acc: Accumulated, links: seq<string>, i: nat, read: string -> Option<Row>)
    requires i < |links|
    ensures VisitLinks(acc, links[..i + 1], read) == VisitLink(VisitLinks(acc, links[..i], read), links[i], read)
  {
    assert links[..i + 1][..i] == links[..i];
  }

  /** A turn keeps the invariant. */
  lemma VisitLinkCoherent(acc: Accumulated, u: string, read: string -> Option<Row>)
    requires Coherent(acc) && ReadsOwnUrl(read)
    ensures Coherent(VisitLink(acc, u, read))
  {
    if u !in acc.processed && read(u).Some? {
      var d := read(u).value;
      var rs := acc.results + [d];
      assert UrlsOf(rs) == UrlsOf(acc.results) + {u} by {
        forall x ensures x in UrlsOf(rs) <==> x in UrlsOf(acc.results) + {u} {
          if x in UrlsOf(rs) {
            var i :| 0 <= i < |rs| && UrlOf(rs[i]) == x;
            if i < |acc.results| { assert rs[i] == acc.results[i]; }
          }
          if x in UrlsOf(acc.results) {
            var i :| 0 <= i < |acc.results| && UrlOf(acc.results[i]) == x;
            assert rs[i] == acc.results[i];
          }
          if x == u {
            assert UrlOf(rs[|acc.results|]) == u;
          }
        }
      }
      forall i | 0 <= i < |acc.results| ensures UrlOf(rs[i]) != u {
        assert UrlOf(acc.results[i]) in UrlsOf(acc.results);
      }
    }
  }

  lemma {:induction false} VisitLinksCoherent(acc: Accumulated, links: seq<string>, read: string -> Option<Row>)
    requires Coherent(acc) && ReadsOwnUrl(read)
    ensures Coherent(VisitLinks(acc, links, read))
    decreases |links|
  {
    if links != [] {
      VisitLinksCoherent(acc, links[..|links| - 1], read);
      VisitLinkCoherent(VisitLinks(acc, links[..|links| - 1], read), links[|links| - 1], read);
    }
  }

  /**
   * What a run adds: the earlier records stay in front, and every new one is
   * what one of the links yields, from a link that had not been processed
   * before.
   */
  lemma {:induction false} VisitLinksAppends(acc: Accumulated, links: seq<string>, read: string -> Option<Row>)
    requires ReadsOwnUrl(read)
    ensures var out := VisitLinks(acc, links, read);
      |acc.results| <= |out.results| && out.results[..|acc.results|] == acc.results
      && acc.processed <= out.processed
      && forall k | |acc.results| <= k < |out.results| ::
        var u := UrlOf(out.results[k]);
        u in links && u !in acc.processed && read(u) == Some(out.results[k])
    decreases |links|
  {
    if links != [] {
      var front := links[..|links| - 1];
      var u := links[|links| - 1];
      VisitLinksAppends(acc, front, read);
      var mid := VisitLinks(acc, front, read);
      var out := VisitLink(mid, u, read);
      assert forall x | x in front :: x in links;
      if out != mid {
        assert out.results == mid.results + [read(u).value];
        assert out.results[..|mid.results|] == mid.results;
        assert out.results[..|acc.results|] == mid.results[..|acc.results|];
      }
    }
  }

  /** Nothing is lost: a link of the run that yields a record is processed at the end. */
  lemma {:induction false} VisitLinksComplete(acc: Accumulated, links: seq<string>, read: string -> Option<Row>, u: string)
    requires u in links && read(u).Some?
    ensures u in VisitLinks(acc, links, read).processed
    decreases |links|
  {
    var front := links[..|links| - 1];
    assert links == front + [links[|links| - 1]];
    if u in front {
      VisitLinksComplete(acc, front, read, u);
    }
  }

  /** Links already processed change nothing. */
  lemma {:induction false} VisitProcessedLinks(acc: Accumulated, links: seq<string>, read: string -> Option<Row>)
    requires forall i | 0 <= i < |links| :: links[i] in acc.processed
    ensures VisitLinks(acc, links, read) == acc
    decreases |links|
  {
    if links != [] {
      VisitProcessedLinks(acc, links[..|links| - 1], read);
    }
  }

  /** enlaces[:max_anuncios]: the first 50 links under GitHub Actions, all of them otherwise. */
  function Window(enlaces: seq<string>, githubActions: bool): (w: seq<string>)
    ensures w == if githubActions && |enlaces| > 50 then enlaces[..50] else enlaces
  {
    var maxAnuncios := if githubActions then 50 else |enlaces|;
    if maxAnuncios < |enlaces| then enlaces[..maxAnuncios] else enlaces
  }

  /** The whole of scrape_model's loop: each search URL's listing links in turn. */
  function VisitSearches(acc: Accumulated, searchUrls: seq<string>, listing: string -> seq<string>, githubActions: bool,
                         read: string -> Option<Row>): Accumulated
    decreases |searchUrls|
  {
    if searchUrls == [] then acc
    else
      var before := VisitSearches(acc, searchUrls[..|searchUrls| - 1], listing, githubActions, read);
      VisitLinks(before, Window(CollectedLinks(listing(searchUrls[|searchUrls| - 1])), githubActions), read)
  }

  /** pd.DataFrame(results): the nine columns, or an empty frame when nothing was kept. */
  function ResultsFrame(results: seq<Row>): Frame {
    if results == [] then Frame([], []) else Frame(DataColumns, results)
  }

  /**
   * A scraper's accumulating state. `results` and `processedUrls` are
   * changed only together, so the one is always the other's URLs.
   */
  class Scraper {
    var results: seq<Row>
    var processedUrls: set<string>

    ghost predicate Valid()
      reads this
    {
      Coherent(Accumulated(results, processedUrls))
    }

    constructor ()
      ensures results == [] && processedUrls == {}
      ensures Valid()
    {
      results := [];
      processedUrls := {};
    }

    /** One turn of the loop over the window's links. */
    method VisitOne(enlace: string, pages: string -> Option<Page>, validate: Row -> bool, now: string)
      modifies this
      ensures Accumulated(results, processedUrls) == VisitLink(old(Accumulated(results, processedUrls)), enlace, Keep(pages, validate, now))
    {
      VisitPage(Accumulated(results, processedUrls), enlace, pages, validate, now);
      if enlace in processedUrls {
        return;
      }
      match pages(enlace) {
        case None =>
        case Some(p) =>
          var motoData := ExtractAnuncio(enlace, p, now);
          if validate(motoData) {
            results := results + [motoData];
            processedUrls := processedUrls + {enlace};
          }
      }
    }

    /**
     * process_search_url_extended on the href attributes of one search page.
     * The URL and total time budgets are not modelled: every link of the
     * window is visited.
     */
    method ProcessSearchUrl(hrefs: seq<string>, githubActions: bool, pages: string -> Option<Page>, validate: Row -> bool, now: string)
      requires Valid()
      modifies this
      ensures Valid()
      ensures Accumulated(results, processedUrls)
        == VisitLinks(old(Accumulated(results, processedUrls)), Window(CollectedLinks(hrefs), githubActions), Keep(pages, validate, now))
    {
      ghost var start := Accumulated(results, processedUrls);
      ghost var read := Keep(pages, validate, now);
      var enlaces := CollectLinks(hrefs);
      if |enlaces| == 0 {
        return;
      }
      var maxAnuncios := if githubActions then 50 else |enlaces|;
      var window := if maxAnuncios < |enlaces| then enlaces[..maxAnuncios] else enlaces;
      assert window == Window(enlaces, githubActions);
      var i := 0;
      while i < |window|
        invariant 0 <= i <= |window|
        invariant Accumulated(results, processedUrls) == VisitLinks(start, window[..i], read)
      {
        VisitLinksStep(start, window, i, read);
        VisitOne(window[i], pages, validate, now);
        i := i + 1;
      }
      assert window[..i] == window;
      KeepMeaning(pages, validate, now);
      VisitLinksCoherent(start, window, read);
    }

    /**
     * scrape_model: every search URL in turn, then the kept records as a
     * frame. `listing` gives the href attributes of a search page.
     */
    method ScrapeModel(searchUrls: seq<string>, listing: string -> seq<string>, githubActions: bool,
                       pages: string -> Option<Page>, validate: Row -> bool, now: string) returns (df: Frame)
      requires Valid()
      modifies this
      ensures Valid()
      ensures Accumulated(results, processedUrls)
        == VisitSearches(old(Accumulated(results, processedUrls)), searchUrls, listing, githubActions, Keep(pages, validate, now))
      ensures df == ResultsFrame(results) && WellFormed(df)
    {
      ghost var start := Accumulated(results, processedUrls);
      var i := 0;
      while i < |searchUrls|
        invariant 0 <= i <= |searchUrls|
        invariant Valid()
        invariant Accumulated(results, processedUrls)
          == VisitSearches(start, searchUrls[..i], listing, githubActions, Keep(pages, validate, now))
      {
        assert searchUrls[..i + 1][..i] == searchUrls[..i];
        ProcessSearchUrl(listing(searchUrls[i]), githubActions, pages, validate, now);
        i := i + 1;
      }
      assert searchUrls[..i] == searchUrls;
      DataColumnsDistinct();
      if results == [] {
        df := Frame([], []);
      } else {
        df := Frame(DataColumns, results);
      }
    }
  }
}
