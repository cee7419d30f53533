/**
 * get_search_urls of the model scrapers: the search URLs are built from
 * query lists and ordering suffixes, then duplicates are dropped, keeping the
 * first occurrence of each URL in order.
 *
 * The PCX125, Agility125, Z900 and MT-07 scrapers share one layout:
 * the base queries with the model's price filter under three orderings, the
 * price-range and regional queries (which carry their own filters) under
 * two, and the unfiltered queries under three. The query lists themselves
 * are inputs here.
 */
module SearchUrls {
  import opened Text
  import opened Seqs
  import Config

  const Newest := "&order_by=newest"
  const PriceLowToHigh := "&order_by=price_low_to_high"

  /** f"https://es.wallapop.com/app/search?keywords={query}" followed by a filter and an ordering. */
  function Url(query: string, tail: string, ordering: string): (u: string)
    ensures HasAt(u, 0, Config.SearchPrefix)
  {
    assert (Config.SearchPrefix + query + tail + ordering)[..|Config.SearchPrefix|] == Config.SearchPrefix;
    Config.SearchPrefix + query + tail + ordering
  }

  /** The URLs of one query, one per ordering, in order. */
  function QueryUrls(query: string, tail: string, orderings: seq<string>): (us: seq<string>)
    ensures |us| == |orderings| && forall j | 0 <= j < |orderings| :: us[j] == Url(query, tail, orderings[j])
  {
    seq(|orderings|, j requires 0 <= j < |orderings| => Url(query, tail, orderings[j]))
  }

  /** The loop over a query list: each query's URLs in turn. */
  function Expand(queries: seq<string>, tail: string, orderings: seq<string>): (us: seq<string>)
    ensures forall u | u in us :: HasAt(u, 0, Config.SearchPrefix)
  {
    if queries == [] then []
    else Expand(queries[..|queries| - 1], tail, orderings) + QueryUrls(queries[|queries| - 1], tail, orderings)
  }

  lemma ExpandStep(queries: seq<string>, i: nat, tail: string, orderings: seq<string>)
    requires i < |queries|
    ensures Expand(queries[..i + 1], tail, orderings) == Expand(queries[..i], tail, orderings) + QueryUrls(queries[i], tail, orderings)
  {
    assert queries[..i + 1][..i] == queries[..i];
  }

  /** Every URL of the loop is one of its queries under one of its orderings. */
  lemma {:induction false} ExpandMembers(queries: seq<string>, tail: string, orderings: seq<string>, u: string)
    requires u in Expand(queries, tail, orderings)
    ensures exists i, j | 0 <= i < |queries| && 0 <= j < |orderings| :: u == Url(queries[i], tail, orderings[j])
  {
    var front := queries[..|queries| - 1];
    if u in Expand(front, tail, orderings) {
      ExpandMembers(front, tail, orderings, u);
      var i, j :| 0 <= i < |front| && 0 <= j < |orderings| && u == Url(front[i], tail, orderings[j]);
      assert front[i] == queries[i];
    } else {
      var us := QueryUrls(queries[|queries| - 1], tail, orderings);
      var j :| 0 <= j < |us| && us[j] == u;
    }
  }

  /** Appends a query list's URLs to `urls`: the loops of get_search_urls. */
  method AppendQueries(urls: seq<string>, queries: seq<string>, tail: string, orderings: seq<string>) returns (out: seq<string>)
    ensures out == urls + Expand(queries, tail, orderings)
  {
    out := urls;
    var i := 0;
    while i < |queries|
      invariant 0 <= i <= |queries|
      invariant out == urls + Expand(queries[..i], tail, orderings)
    {
      AppendStep(urls, queries, i, tail, orderings);
      out := out + QueryUrls(queries[i], tail, orderings);
      i := i + 1;
    }
    assert queries[..i] == queries;
  }

  lemma AppendStep(urls: seq<string>, queries: seq<string>, i: nat, tail: string, orderings: seq<string>)
    requires i < |queries|
    ensures urls + Expand(queries[..i + 1], tail, orderings)
      == urls + Expand(queries[..i], tail, orderings) + QueryUrls(queries[i], tail, orderings)
  {
    ExpandStep(queries, i, tail, orderings);
  }

  /** Two URLs differ when their parts differ in length, or in a query of the same length. */
  lemma UrlsDiffer(q1: string, o1: string, q2: string, o2: string, tail: string)
    requires |q1| + |o1| != |q2| + |o2| || (|q1| == |q2| && q1 != q2)
    ensures Url(q1, tail, o1) != Url(q2, tail, o2)
  {
    if |q1| + |o1| == |q2| + |o2| {
      var k :| 0 <= k < |q1| && q1[k] != q2[k];
      var p := |Config.SearchPrefix|;
      assert Url(q1, tail, o1)[p + k] == q1[k];
      assert Url(q2, tail, o2)[p + k] == q2[k];
    }
  }

  // ------------------------------------------------------------------
  // The extended layout
  // ------------------------------------------------------------------

  datatype QueryLists = QueryLists(base: seq<string>, priced: seq<string>, regional: seq<string>, unpriced: seq<string>)

  /** Every URL before duplicates are dropped, in the order it is appended. */
  function ExtendedUrls(c: Config.ModelConfig, q: QueryLists): seq<string> {
    Expand(q.base, Config.PriceFilter(c), ["", Newest, PriceLowToHigh])
    + Expand(q.priced, "", ["", Newest])
    + Expand(q.regional, "", ["", Newest])
    + Expand(q.unpriced, "", ["", PriceLowToHigh, Newest])
  }

  method GetSearchUrlsExtended(c: Config.ModelConfig, q: QueryLists) returns (uniqueUrls: seq<string>)
    ensures uniqueUrls == Dedup(ExtendedUrls(c, q))
  {
    var urls := AppendQueries([], q.base, Config.PriceFilter(c), ["", Newest, PriceLowToHigh]);
    urls := AppendQueries(urls, q.priced, "", ["", Newest]);
    urls := AppendQueries(urls, q.regional, "", ["", Newest]);
    urls := AppendQueries(urls, q.unpriced, "", ["", PriceLowToHigh, Newest]);
    ExtendedUrlsSplit(c, q, urls);
    uniqueUrls := DedupInOrder(urls);
  }

  lemma ExtendedUrlsSplit(c: Config.ModelConfig, q: QueryLists, urls: seq<string>)
    requires urls == [] + Expand(q.base, Config.PriceFilter(c), ["", Newest, PriceLowToHigh])
      + Expand(q.priced, "", ["", Newest]) + Expand(q.regional, "", ["", Newest])
      + Expand(q.unpriced, "", ["", PriceLowToHigh, Newest])
    ensures urls == ExtendedUrls(c, q)
  {
    var e := Expand(q.base, Config.PriceFilter(c), ["", Newest, PriceLowToHigh]);
    assert [] + e == e;
  }

  /**
   * The URL list has no duplicates, holds exactly the URLs built, keeps them
   * in the order they were built, and every one is a Wallapop search.
   */
  lemma ExtendedUrlsProperties(c: Config.ModelConfig, q: QueryLists)
    ensures var us := Dedup(ExtendedUrls(c, q));
      NoDuplicates(us) && IsSubseq(us, ExtendedUrls(c, q))
      && (forall u :: u in us <==> u in ExtendedUrls(c, q))
      && forall u | u in us :: HasAt(u, 0, Config.SearchPrefix)
  {
    DedupProperties(ExtendedUrls(c, q));
  }

  /** Every base query is searched with the model's price filter under each of the three orderings. */
  lemma BaseQueriesSearched(c: Config.ModelConfig, q: QueryLists, i: nat, j: nat)
    requires i < |q.base| && j < 3
    ensures Url(q.base[i], Config.PriceFilter(c), ["", Newest, PriceLowToHigh][j]) in Dedup(ExtendedUrls(c, q))
  {
    var os := ["", Newest, PriceLowToHigh];
    var u := Url(q.base[i], Config.PriceFilter(c), os[j]);
    ExpandStep(q.base, i, Config.PriceFilter(c), os);
    PrefixExpand(q.base, i + 1, Config.PriceFilter(c), os);
    assert u in QueryUrls(q.base[i], Config.PriceFilter(c), os);
    DedupProperties(ExtendedUrls(c, q));
  }

  /** The loop over a prefix of a query list yields a prefix of its URLs. */
  lemma {:induction false} PrefixExpand(queries: seq<string>, n: nat, tail: string, orderings: seq<string>)
    requires n <= |queries|
    ensures forall u | u in Expand(queries[..n], tail, orderings) :: u in Expand(queries, tail, orderings)
    decreases |queries| - n
  {
    if n < |queries| {
      PrefixExpand(queries, n + 1, tail, orderings);
      ExpandStep(queries, n, tail, orderings);
    } else {
      assert queries[..n] == queries;
    }
  }
}
