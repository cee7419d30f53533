/**
 * The deal scorer (RentabilidadCalculator): its own price, mileage and year
 * readers, min-max scores over a batch, the weighted composite, the six
 * categories, and the ranking of a frame.
 *
 * Scores are exact reals; IEEE rounding is not modelled.
 */
module Scorer {
  import opened Wrappers
  import opened Text
  import opened Seqs
  import opened Patterns
  import opened Frames
  import opened Config
  import opened Cleaner

  // ------------------------------------------------------------------
  // Readers
  // ------------------------------------------------------------------

  /**
   * _extract_price on present text. Unlike the cleaner's reader, a comma
   * followed by three or more digits is a thousands separator here.
   */
  function PriceValue(text: string): (r: real)
    ensures r >= 0.0
  {
    var clean := KeepNumberChars(text);
    if clean == [] then 0.0
    else if ',' in clean && '.' in clean then
      if CountChar(clean, ',') == 1 && |After(clean, ',')| <= 2 then
        FloatOr0(RemoveChar(Before(clean, ','), '.') + "." + After(clean, ','))
      else FloatOr0(RemoveChar(RemoveChar(clean, '.'), ','))
    else if ',' in clean then
      if CountChar(clean, ',') == 1 && |After(clean, ',')| <= 2 then FloatOr0(ReplaceChar(clean, ',', '.'))
      else FloatOr0(RemoveChar(clean, ','))
    else if '.' in clean then
      if CountChar(clean, '.') == 1 && |After(clean, '.')| <= 2 then FloatOr0(clean)
      else FloatOr0(RemoveChar(clean, '.'))
    else FloatOr0(clean)
  }

  /** _extract_price: 0.0 for NaN and empty cells. */
  function ExtractPrice(c: Cell, repr: real -> string): (r: real)
    ensures r >= 0.0
    ensures PresentText(c, repr).None? ==> r == 0.0
  {
    match PresentText(c, repr)
    case None => 0.0
    case Some(t) => PriceValue(t)
  }

  /** A dot-grouped price such as "7.690 €" reads back as its value, whatever its size. */
  lemma PriceValueOfGrouped(n: nat, tail: string)
    requires Inert(tail)
    ensures PriceValue(Grouped(n) + tail) == n as real
  {
    GroupedThenInert(n, tail);
    SameKeptPrice(Grouped(n) + tail, Grouped(n));
    GroupedPriceValue(n);
  }

  /** The price reading depends on the number characters alone. */
  lemma SameKeptPrice(a: string, b: string)
    requires KeepNumberChars(a) == KeepNumberChars(b)
    ensures PriceValue(a) == PriceValue(b)
  {
  }

  lemma GroupedPriceValue(n: nat)
    ensures PriceValue(Grouped(n)) == n as real
  {
    var g := Grouped(n);
    KeepNumberCharsKeeps(g);
    assert ',' !in g by { assert forall i | 0 <= i < |g| :: g[i] != ','; }
    GroupedDigits(n);
    if n < 1000 {
      assert '.' !in g by { GroupedDots(n); assert forall i | 0 <= i < |g| :: g[i] != '.'; }
      UndottedPriceValue(g);
    } else {
      GroupedDots(n);
      assert '.' in g;
      if n < 1000000 {
        GroupedSplit(n);
      }
      assert !(CountChar(g, '.') == 1 && |After(g, '.')| <= 2);
      DottedPriceValue(g);
    }
  }

  /** Number characters without separators read as their digits. */
  lemma UndottedPriceValue(g: string)
    requires KeepNumberChars(g) == g && g != [] && ',' !in g && '.' !in g && AllDigits(g)
    ensures PriceValue(g) == DigitsValue(g) as real
  {
    PyFloatOfDigits(g);
  }

  /** Dots that do not mark one or two decimals are dropped. */
  lemma DottedPriceValue(g: string)
    requires KeepNumberChars(g) == g && ',' !in g && '.' in g
    requires !(CountChar(g, '.') == 1 && |After(g, '.')| <= 2)
    requires RemoveChar(g, '.') != [] && AllDigits(RemoveChar(g, '.'))
    ensures PriceValue(g) == DigitsValue(RemoveChar(g, '.')) as real
  {
    PyFloatOfDigits(RemoveChar(g, '.'));
  }

  /** A comma followed by three or more digits is a thousands separator: "7,690" gives 7690. */
  lemma PriceValueCommaThousands(d: string, t: string)
    requires IsDigitString(d) && AllDigits(t) && |t| >= 3
    ensures PriceValue(d + "," + t) == DigitsValue(d + t) as real
  {
    var s := d + [','] + t;
    assert d + "," + t == s;
    CommaJoined(d, t);
    DigitsOfConcat(d, t);
    PyFloatOfDigits(d + t);
    assert FloatOr0(d + t) == DigitsValue(d + t) as real;
  }

  /** On "d,ttt" the two price readers of the pipeline disagree whenever d is not zero. */
  lemma PriceReadersDisagree(d: string, t: string)
    requires IsDigitString(d) && AllDigits(t) && |t| >= 3 && DigitsValue(d) > 0
    ensures ExtractPriceNumber(d + "," + t) == DigitsValue(d) as real
    ensures PriceValue(d + "," + t) == DigitsValue(d + t) as real
    ensures ExtractPriceNumber(d + "," + t) < PriceValue(d + "," + t)
  {
    ExtractPriceCommaThousands(d, t);
    PriceValueCommaThousands(d, t);
    AppendingDigitsGrows(d, t);
  }

  lemma AppendingDigitsGrows(d: string, t: string)
    requires AllDigits(d) && AllDigits(t) && |t| >= 3 && DigitsValue(d) > 0
    ensures AllDigits(d + t) && DigitsValue(d) < DigitsValue(d + t)
  {
    DigitsValueConcat(d, t);
    Pow10AtLeast(|t|);
    var v, p := DigitsValue(d), Pow10(|t|);
    assert v * p >= v * 1000 by { MulMono(v, 1000, p); }
  }

  lemma MulMono(v: nat, a: nat, b: nat)
    requires a <= b
    ensures v * a <= v * b
  {
  }

  lemma {:induction false} Pow10AtLeast(n: nat)
    requires n >= 3
    ensures Pow10(n) >= 1000
  {
    if n > 3 {
      Pow10AtLeast(n - 1);
    }
  }

  lemma DigitsOfConcat(d: string, t: string)
    requires IsDigitString(d) && AllDigits(t)
    ensures IsDigitString(d + t)
  {
    assert forall i | 0 <= i < |d + t| :: IsDigit((d + t)[i]) by {
      forall i | 0 <= i < |d + t| ensures IsDigit((d + t)[i]) {
        if i < |d| { assert (d + t)[i] == d[i]; } else { assert (d + t)[i] == t[i - |d|]; }
      }
    }
  }

  /** The first digit run once dots and commas are deleted, or 0.0. */
  function KmReading(l: string): (v: real)
    ensures v >= 0.0
  {
    FirstRunOr0(RemoveChar(RemoveChar(l, '.'), ','))
  }

  /**
   * _extract_km on present text, as written: any "metro" in the lower-cased
   * text counts as a metre unit, the one inside "kilómetros" included.
   * Stripping whitespace first changes neither test.
   */
  function KmValueAsWritten(text: string): (r: real)
    ensures r >= 0.0
  {
    var l := Lower(text);
    var v := KmReading(l);
    if Contains(l, "metro") && v > 10000.0 then v / 1000.0 else v
  }

  /** A metre unit: "metro" that is not part of "kilómetro" or "kilometro". */
  predicate MentionsMetres(l: string) {
    Contains(l, "metro") && !Contains(l, "kil\U{F3}metro") && !Contains(l, "kilometro")
  }

  /** _extract_km with the unit test it evidently means: only metres are divided by 1000. */
  function KmValue(text: string): (r: real)
    ensures r >= 0.0
  {
    var l := Lower(text);
    var v := KmReading(l);
    if MentionsMetres(l) && v > 10000.0 then v / 1000.0 else v
  }

  /**
   * The two readers part only on a "kilómetro" or "kilometro" text above
   * ten thousand, which the reading as written divides by 1000.
   */
  lemma KmReadersDiffer(text: string)
    ensures KmValue(text) != KmValueAsWritten(text)
      <==> Contains(Lower(text), "metro") && !MentionsMetres(Lower(text)) && KmReading(Lower(text)) > 10000.0
    ensures KmValue(text) != KmValueAsWritten(text) ==> KmValueAsWritten(text) == KmValue(text) / 1000.0
  {
  }

  /** _extract_km on a cell: 0.0 for NaN and empty cells. */
  function ExtractKm(c: Cell, repr: real -> string): (r: real)
    ensures r >= 0.0
    ensures PresentText(c, repr).None? ==> r == 0.0
  {
    match PresentText(c, repr)
    case None => 0.0
    case Some(t) => KmValue(t)
  }

  /** The digits of n followed by text with no digit, dot or comma read back as n. */
  lemma KmReadingOfDigits(d: string, tail: string)
    requires IsDigitString(d) && Inert(tail)
    requires tail != [] ==> !IsDigit(tail[0])
    ensures KmReading(d + tail) == DigitsValue(d) as real
  {
    assert '.' !in d + tail && ',' !in d + tail by {
      forall i | 0 <= i < |d + tail| ensures (d + tail)[i] != '.' && (d + tail)[i] != ',' {
        if i < |d| { assert (d + tail)[i] == d[i]; } else { assert (d + tail)[i] == tail[i - |d|]; }
      }
    }
    RemoveAbsent(d + tail, '.');
    RemoveAbsent(d + tail, ',');
    FirstDigitRunOfDigits(d, tail);
  }

  /** A dot-grouped number followed by inert text reads back as its value. */
  lemma KmReadingOfGrouped(n: nat, tail: string)
    requires Inert(tail)
    ensures KmReading(Grouped(n) + tail) == n as real
  {
    var g := Grouped(n);
    GroupedDigits(n);
    var d := RemoveChar(g, '.');
    assert d == [g[0]] + RemoveChar(g[1..], '.');
    RemoveCharConcat(g, tail, '.');
    RemoveAbsent(tail, '.');
    assert RemoveChar(g + tail, '.') == d + tail;
    assert IsDigitString(d);
    KmReadingOfDigits(d, tail);
    RemoveAbsent(d + tail, '.');
    assert KmReading(g + tail) == FirstRunOr0(RemoveChar(d + tail, ','));
  }

  /** The mileage the scrapers write, "15.000 km", reads back as its value. */
  lemma KmValueOfGrouped(n: nat)
    ensures KmValue(Grouped(n) + " km") == n as real
    ensures KmValueAsWritten(Grouped(n) + " km") == n as real
  {
    var g := Grouped(n);
    var s := g + " km";
    assert forall i | 0 <= i < |s| :: LowerChar(s[i]) == s[i] && s[i] != 'e' by {
      forall i | 0 <= i < |s| ensures LowerChar(s[i]) == s[i] && s[i] != 'e' {
        if i < |g| { assert s[i] == g[i]; }
      }
    }
    LowerUnchanged(s);
    NotContainsByChar(s, "metro", 1);
    KmReadingOfGrouped(n, " km");
  }

  /**
   * An odometer reading in kilómetros above 10000 is divided by 1000 as
   * written, and kept once only metres count.
   */
  lemma KilometresCounterexample(n: nat)
    requires n > 10000
    ensures KmValueAsWritten(NatToString(n) + " kil\U{F3}metros") == n as real / 1000.0
    ensures KmValue(NatToString(n) + " kil\U{F3}metros") == n as real
  {
    var d := NatToString(n);
    var tail := " kil\U{F3}metros";
    KilometresLower(d);
    KilometresWords(d);
    KmReadingOfDigits(d, tail);
  }

  lemma KilometresLower(d: string)
    requires IsDigitString(d)
    ensures Lower(d + " kil\U{F3}metros") == d + " kil\U{F3}metros"
  {
    var tail := " kil\U{F3}metros";
    var s := d + tail;
    forall i | 0 <= i < |s| ensures LowerChar(s[i]) == s[i] {
      if i < |d| { assert s[i] == d[i]; } else { assert s[i] == tail[i - |d|]; }
    }
    LowerUnchanged(s);
  }

  lemma KilometresWords(d: string)
    ensures Contains(d + " kil\U{F3}metros", "metro") && Contains(d + " kil\U{F3}metros", "kil\U{F3}metro")
  {
    var tail := " kil\U{F3}metros";
    var s := d + tail;
    assert s[|d| + 5..|d| + 10] == tail[5..10] == "metro";
    ContainsAt(s, |d| + 5, "metro");
    assert s[|d| + 1..|d| + 10] == tail[1..10] == "kil\U{F3}metro";
    ContainsAt(s, |d| + 1, "kil\U{F3}metro");
  }

  /** Readings in metres are still converted once the unit test is corrected. */
  lemma MetresConverted(n: nat)
    requires n > 10000
    ensures KmValue(NatToString(n) + " metros") == n as real / 1000.0
  {
    var d := NatToString(n);
    MetresLower(d);
    MetresWords(d);
    KmReadingOfDigits(d, " metros");
  }

  lemma MetresLower(d: string)
    requires AllDigits(d)
    ensures Lower(d + " metros") == d + " metros"
  {
    var tail := " metros";
    var s := d + tail;
    forall i | 0 <= i < |s| ensures LowerChar(s[i]) == s[i] {
      if i < |d| { assert s[i] == d[i]; } else { assert s[i] == tail[i - |d|]; }
    }
    LowerUnchanged(s);
  }

  lemma MetresWords(d: string)
    requires AllDigits(d)
    ensures MentionsMetres(d + " metros")
  {
    var tail := " metros";
    var s := d + tail;
    assert s[|d| + 1..|d| + 6] == tail[1..6] == "metro";
    ContainsAt(s, |d| + 1, "metro");
    assert 'k' !in s by {
      forall i | 0 <= i < |s| ensures s[i] != 'k' {
        if i < |d| { assert s[i] == d[i]; } else { assert s[i] == tail[i - |d|]; }
      }
    }
    NotContainsByChar(s, "kil\U{F3}metro", 0);
    NotContainsByChar(s, "kilometro", 0);
  }

  /**
   * _extract_year on present text: the first (19|20)dd token, kept only in
   * [1990, currentYear + 1]. Leading and trailing whitespace can be part of
   * no token, so the strip() before the search changes nothing.
   */
  function YearValue(text: string, currentYear: nat): (y: nat)
    ensures y == 0 || 1990 <= y <= currentYear + 1
  {
    match First19Or20Year(text)
    case None => 0
    case Some(v) => if 1990 <= v <= currentYear + 1 then v else 0
  }

  /** _extract_year: 0 for NaN and empty cells. */
  function ExtractYear(c: Cell, repr: real -> string, currentYear: nat): (y: nat)
    ensures y == 0 || 1990 <= y <= currentYear + 1
    ensures PresentText(c, repr).None? ==> y == 0
  {
    match PresentText(c, repr)
    case None => 0
    case Some(t) => YearValue(t, currentYear)
  }

  /** Only the first year-like token counts, whatever follows it. */
  lemma FirstYearDecides(a: nat, rest: string, currentYear: nat)
    requires 1900 <= a <= 2099
    ensures YearValue(NatToString(a) + rest, currentYear) == if 1990 <= a <= currentYear + 1 then a else 0
  {
    var d := NatToString(a);
    var s := d + rest;
    YearDigits(a);
    assert s[..4] == d;
    if a < 2000 {
      assert a / 1000 == 1 && a / 100 % 10 == 9;
      assert YearAt(s, 0, "19");
    } else {
      assert a / 1000 == 2 && a / 100 % 10 == 0;
      assert YearAt(s, 0, "20");
    }
  }

  // ------------------------------------------------------------------
  // Min-max scores
  // ------------------------------------------------------------------

  function SeqMin(xs: seq<real>): real
    requires |xs| > 0
  {
    if |xs| == 1 then xs[0]
    else
      var m := SeqMin(xs[1..]);
      if xs[0] <= m then xs[0] else m
  }

  function SeqMax(xs: seq<real>): real
    requires |xs| > 0
  {
    if |xs| == 1 then xs[0]
    else
      var m := SeqMax(xs[1..]);
      if xs[0] >= m then xs[0] else m
  }

  /** min() and max() bound every element of the batch, and both occur in it. */
  lemma SeqBounds(xs: seq<real>, i: nat)
    requires i < |xs|
    ensures SeqMin(xs) <= xs[i] <= SeqMax(xs)
    ensures SeqMin(xs) in xs && SeqMax(xs) in xs
  {
    SeqBetween(xs, i);
    SeqExtremesOccur(xs);
  }

  lemma {:induction false} SeqBetween(xs: seq<real>, i: nat)
    requires i < |xs|
    ensures SeqMin(xs) <= xs[i] <= SeqMax(xs)
  {
    if |xs| > 1 {
      if i > 0 {
        assert xs[i] == xs[1..][i - 1];
        SeqBetween(xs[1..], i - 1);
      } else {
        SeqBetween(xs[1..], 0);
      }
    }
  }

  lemma {:induction false} SeqExtremesOccur(xs: seq<real>)
    requires |xs| > 0
    ensures SeqMin(xs) in xs && SeqMax(xs) in xs
  {
    if |xs| > 1 {
      SeqExtremesOccur(xs[1..]);
    }
  }

  lemma SeqMinLeMax(xs: seq<real>)
    requires |xs| > 0
    ensures SeqMin(xs) <= SeqMax(xs)
  {
    SeqBetween(xs, 0);
  }

  /** `series.empty or series.max() == series.min()`: the batch gets the neutral score. */
  predicate Flat(xs: seq<real>) {
    |xs| == 0 || SeqMax(xs) == SeqMin(xs)
  }

  /** 10·a/d: the share a of a positive span d, on a scale of ten. */
  function Scaled(a: real, d: real): real
    requires d > 0.0
  {
    10.0 * a / d
  }

  lemma DivSign(a: real, d: real)
    requires d > 0.0
    ensures a >= 0.0 ==> a / d >= 0.0
    ensures a > 0.0 ==> a / d > 0.0
    ensures a / d == 0.0 <==> a == 0.0
  {
    assert (a / d) * d == a;
  }

  lemma DivSub(a: real, b: real, d: real)
    requires d > 0.0
    ensures b / d - a / d == (b - a) / d
  {
    assert (a / d) * d == a;
    assert (b / d) * d == b;
    assert ((b - a) / d) * d == b - a;
  }

  lemma DivScale(a: real, d: real)
    requires d > 0.0
    ensures (10.0 * a) / d == 10.0 * (a / d)
    ensures d / d == 1.0
  {
    assert (a / d) * d == a;
    assert ((10.0 * a) / d) * d == 10.0 * a;
  }

  /** a/d on [0, d], as a share: at most one, and one exactly at d. */
  lemma DivShare(a: real, d: real)
    requires d > 0.0 && a <= d
    ensures a / d <= 1.0
    ensures a / d == 1.0 <==> a == d
  {
    DivSub(a, d, d);
    DivScale(a, d);
    DivSign(d - a, d);
  }

  lemma ScaledProperties(a: real, b: real, d: real)
    requires d > 0.0 && 0.0 <= a <= d && 0.0 <= b <= d
    ensures 0.0 <= Scaled(a, d) <= 10.0
    ensures Scaled(a, d) == 10.0 <==> a == d
    ensures Scaled(a, d) == 0.0 <==> a == 0.0
    ensures a <= b ==> Scaled(a, d) <= Scaled(b, d)
    ensures a < b ==> Scaled(a, d) < Scaled(b, d)
  {
    DivSign(a, d);
    DivSign(b - a, d);
    DivSub(a, b, d);
    DivScale(a, d);
    DivScale(b, d);
    DivShare(a, d);
    assert Scaled(a, d) == 10.0 * (a / d);
    assert Scaled(b, d) == 10.0 * (b / d);
  }

  /**
   * _calculate_price_score and _calculate_km_score: 10·(max − x)/(max − min),
   * or 5.0 throughout for a flat batch.
   */
  function InverseScores(xs: seq<real>): (ss: seq<real>)
    ensures |ss| == |xs|
    ensures !Flat(xs) ==>
      SeqMin(xs) < SeqMax(xs) && forall i | 0 <= i < |xs| :: ss[i] == Scaled(SeqMax(xs) - xs[i], SeqMax(xs) - SeqMin(xs))
  {
    if Flat(xs) then seq(|xs|, i => 5.0)
    else
      var lo, hi := SeqMin(xs), SeqMax(xs);
      SeqMinLeMax(xs);
      seq(|xs|, i requires 0 <= i < |xs| => Scaled(hi - xs[i], hi - lo))
  }

  /** _calculate_year_score: 10·(x − min)/(max − min), or 5.0 throughout for a flat batch. */
  function DirectScores(xs: seq<real>): (ss: seq<real>)
    ensures |ss| == |xs|
    ensures !Flat(xs) ==>
      SeqMin(xs) < SeqMax(xs) && forall i | 0 <= i < |xs| :: ss[i] == Scaled(xs[i] - SeqMin(xs), SeqMax(xs) - SeqMin(xs))
  {
    if Flat(xs) then seq(|xs|, i => 5.0)
    else
      var lo, hi := SeqMin(xs), SeqMax(xs);
      SeqMinLeMax(xs);
      seq(|xs|, i requires 0 <= i < |xs| => Scaled(xs[i] - lo, hi - lo))
  }

  /** Lower is better: the scores lie in [0, 10], and a flat batch scores 5.0 throughout. */
  lemma InverseScoresRange(xs: seq<real>, i: nat)
    requires i < |xs|
    ensures 0.0 <= InverseScores(xs)[i] <= 10.0
    ensures Flat(xs) ==> InverseScores(xs)[i] == 5.0
  {
    if !Flat(xs) {
      SeqBetween(xs, i);
      var a, d := SeqMax(xs) - xs[i], SeqMax(xs) - SeqMin(xs);
      ScaledProperties(a, a, d);
    }
  }

  /** Otherwise the score is 10 exactly at the batch minimum and 0 exactly at its maximum. */
  lemma InverseScoresExtremes(xs: seq<real>, i: nat)
    requires i < |xs| && !Flat(xs)
    ensures InverseScores(xs)[i] == 10.0 <==> xs[i] == SeqMin(xs)
    ensures InverseScores(xs)[i] == 0.0 <==> xs[i] == SeqMax(xs)
  {
    var lo, hi := SeqMin(xs), SeqMax(xs);
    assert lo <= xs[i] <= hi && lo < hi && InverseScores(xs)[i] == Scaled(hi - xs[i], hi - lo) by {
      SeqBetween(xs, i);
    }
    ScaledEnds(xs[i], lo, hi);
  }

  /** On a span lo < hi, the share of x is 10 exactly at one end and 0 exactly at the other. */
  lemma ScaledEnds(x: real, lo: real, hi: real)
    requires lo <= x <= hi && lo < hi
    ensures Scaled(x - lo, hi - lo) == 10.0 <==> x == hi
    ensures Scaled(x - lo, hi - lo) == 0.0 <==> x == lo
    ensures Scaled(hi - x, hi - lo) == 10.0 <==> x == lo
    ensures Scaled(hi - x, hi - lo) == 0.0 <==> x == hi
  {
    ScaledProperties(x - lo, x - lo, hi - lo);
    ScaledProperties(hi - x, hi - x, hi - lo);
  }

  /** Lower is better: a smaller value never scores lower, and strictly higher unless tied. */
  lemma InverseScoresAntitone(xs: seq<real>, i: nat, j: nat)
    requires i < |xs| && j < |xs|
    ensures xs[i] <= xs[j] ==> InverseScores(xs)[i] >= InverseScores(xs)[j]
    ensures xs[i] < xs[j] ==> InverseScores(xs)[i] > InverseScores(xs)[j]
  {
    SeqBetween(xs, i);
    SeqBetween(xs, j);
    if !Flat(xs) {
      var lo, hi := SeqMin(xs), SeqMax(xs);
      ScaledProperties(hi - xs[j], hi - xs[i], hi - lo);
    }
  }

  /** Higher is better: the scores lie in [0, 10], and a flat batch scores 5.0 throughout. */
  lemma DirectScoresRange(xs: seq<real>, i: nat)
    requires i < |xs|
    ensures 0.0 <= DirectScores(xs)[i] <= 10.0
    ensures Flat(xs) ==> DirectScores(xs)[i] == 5.0
  {
    if !Flat(xs) {
      SeqBetween(xs, i);
      var a, d := xs[i] - SeqMin(xs), SeqMax(xs) - SeqMin(xs);
      ScaledProperties(a, a, d);
    }
  }

  /** Otherwise the score is 10 exactly at the batch maximum and 0 exactly at its minimum. */
  lemma DirectScoresExtremes(xs: seq<real>, i: nat)
    requires i < |xs| && !Flat(xs)
    ensures DirectScores(xs)[i] == 10.0 <==> xs[i] == SeqMax(xs)
    ensures DirectScores(xs)[i] == 0.0 <==> xs[i] == SeqMin(xs)
  {
    var lo, hi := SeqMin(xs), SeqMax(xs);
    assert lo <= xs[i] <= hi && lo < hi && DirectScores(xs)[i] == Scaled(xs[i] - lo, hi - lo) by {
      SeqBetween(xs, i);
    }
    ScaledEnds(xs[i], lo, hi);
  }

  lemma DirectScoresMonotone(xs: seq<real>, i: nat, j: nat)
    requires i < |xs| && j < |xs|
    ensures xs[i] <= xs[j] ==> DirectScores(xs)[i] <= DirectScores(xs)[j]
    ensures xs[i] < xs[j] ==> DirectScores(xs)[i] < DirectScores(xs)[j]
  {
    SeqBetween(xs, i);
    SeqBetween(xs, j);
    if !Flat(xs) {
      var lo, hi := SeqMin(xs), SeqMax(xs);
      ScaledProperties(xs[i] - lo, xs[j] - lo, hi - lo);
    }
  }

  // ------------------------------------------------------------------
  // Composite score and category
  // ------------------------------------------------------------------

  /** What the calculator reads from one row: price, mileage and year, 0 when unreadable. */
  datatype Reading = Reading(price: real, km: real, year: nat)

  /** The row filter of df_valido. */
  predicate Usable(x: Reading) {
    x.price > 0.0 && x.km >= 0.0 && x.year > 0
  }

  function PricesOf(xs: seq<Reading>): (ps: seq<real>)
    ensures |ps| == |xs| && forall i | 0 <= i < |xs| :: ps[i] == xs[i].price
  {
    seq(|xs|, i requires 0 <= i < |xs| => xs[i].price)
  }

  function KmsOf(xs: seq<Reading>): (ks: seq<real>)
    ensures |ks| == |xs| && forall i | 0 <= i < |xs| :: ks[i] == xs[i].km
  {
    seq(|xs|, i requires 0 <= i < |xs| => xs[i].km)
  }

  function YearsOf(xs: seq<Reading>): (ys: seq<real>)
    ensures |ys| == |xs| && forall i | 0 <= i < |xs| :: ys[i] == xs[i].year as real
  {
    seq(|xs|, i requires 0 <= i < |xs| => xs[i].year as real)
  }

  /** The weighted sum of the three scores, with the configured weights. */
  function Total(scorePrice: real, scoreKm: real, scoreYear: real): real {
    scorePrice * PesoPrecio + scoreKm * PesoKilometraje + scoreYear * PesoAnio
  }

  /** _score_total of every usable row, scored against the usable rows only. */
  function CompositeScores(xs: seq<Reading>): (ts: seq<real>)
    ensures |ts| == |xs|
  {
    var sp, sk, sy := InverseScores(PricesOf(xs)), InverseScores(KmsOf(xs)), DirectScores(YearsOf(xs));
    seq(|xs|, i requires 0 <= i < |xs| => Total(sp[i], sk[i], sy[i]))
  }

  /** Weights summing to one keep the composite on the same [0, 10] scale. */
  lemma CompositeInRange(xs: seq<Reading>, i: nat)
    requires i < |xs|
    ensures 0.0 <= CompositeScores(xs)[i] <= 10.0
  {
    InverseScoresRange(PricesOf(xs), i);
    InverseScoresRange(KmsOf(xs), i);
    DirectScoresRange(YearsOf(xs), i);
  }

  /** A cheaper listing with the same mileage and year has the strictly higher composite. */
  lemma CheaperScoresHigher(xs: seq<Reading>, i: nat, j: nat)
    requires i < |xs| && j < |xs|
    requires xs[i].price < xs[j].price && xs[i].km == xs[j].km && xs[i].year == xs[j].year
    ensures CompositeScores(xs)[i] > CompositeScores(xs)[j]
  {
    InverseScoresAntitone(PricesOf(xs), i, j);
    InverseScoresAntitone(KmsOf(xs), i, j);
    InverseScoresAntitone(KmsOf(xs), j, i);
    DirectScoresMonotone(YearsOf(xs), i, j);
    DirectScoresMonotone(YearsOf(xs), j, i);
  }

  /** _get_categoria_simple: bands on the score as a percentage of 10. */
  function Categoria(score: real): string {
    var porcentaje := (score / 10.0) * 100.0;
    if porcentaje >= 85.0 then "Excelente"
    else if porcentaje >= 70.0 then "Muy Buena"
    else if porcentaje >= 55.0 then "Buena"
    else if porcentaje >= 40.0 then "Regular"
    else if porcentaje >= 25.0 then "Baja"
    else "Muy Baja"
  }

  /** The six categories from worst to best, and the percentages that separate them. */
  const Tiers: seq<string> := ["Muy Baja", "Baja", "Regular", "Buena", "Muy Buena", "Excelente"]
  const Cortes: seq<real> := [25.0, 40.0, 55.0, 70.0, 85.0]

  /** How many of the cutoffs the percentage p reaches. */
  function Reached(cortes: seq<real>, p: real): (n: nat)
    ensures n <= |cortes|
  {
    if cortes == [] then 0 else (if cortes[0] <= p then 1 else 0) + Reached(cortes[1..], p)
  }

  lemma {:induction false} ReachedMonotone(cortes: seq<real>, p: real, q: real)
    requires p <= q
    ensures Reached(cortes, p) <= Reached(cortes, q)
  {
    if cortes != [] {
      ReachedMonotone(cortes[1..], p, q);
    }
  }

  /** The category is the tier whose index counts the cutoffs reached. */
  lemma CategoriaIsTier(score: real)
    ensures Categoria(score) == Tiers[Reached(Cortes, score * 10.0)]
  {
    var p := score * 10.0;
    assert (score / 10.0) * 100.0 == p;
    var c4: seq<real> := [85.0];
    var c3: seq<real> := [70.0] + c4;
    var c2: seq<real> := [55.0] + c3;
    var c1: seq<real> := [40.0] + c2;
    assert Cortes == [25.0] + c1;
    assert c4[1..] == [] && c3[1..] == c4 && c2[1..] == c3 && c1[1..] == c2 && Cortes[1..] == c1;
    assert Reached(c4, p) == if 85.0 <= p then 1 else 0;
    assert Reached(c3, p) == (if 70.0 <= p then 1 else 0) + Reached(c4, p);
    assert Reached(c2, p) == (if 55.0 <= p then 1 else 0) + Reached(c3, p);
    assert Reached(c1, p) == (if 40.0 <= p then 1 else 0) + Reached(c2, p);
    assert Reached(Cortes, p) == (if 25.0 <= p then 1 else 0) + Reached(c1, p);
  }

  /** A higher score never gets a worse category. */
  lemma CategoriaMonotone(s: real, t: real)
    requires s <= t
    ensures Categoria(s) == Tiers[Reached(Cortes, s * 10.0)]
    ensures Categoria(t) == Tiers[Reached(Cortes, t * 10.0)]
    ensures Reached(Cortes, s * 10.0) <= Reached(Cortes, t * 10.0)
  {
    CategoriaIsTier(s);
    CategoriaIsTier(t);
    ReachedMonotone(Cortes, s * 10.0, t * 10.0);
  }

  // ------------------------------------------------------------------
  // Ordering by composite score
  // ------------------------------------------------------------------

  /** A labelled output row and the composite it is sorted by. */
  datatype Scored = Scored(row: Row, total: real)

  predicate SortedDesc(s: seq<Scored>) {
    forall i, j | 0 <= i < j < |s| :: s[i].total >= s[j].total
  }

  /** Puts x in front of the first element with a smaller total. */
  function InsertDesc(s: seq<Scored>, x: Scored): (r: seq<Scored>)
    ensures multiset(r) == multiset(s) + multiset{x}
    ensures |r| == |s| + 1 && r[0] == if s == [] || x.total > s[0].total then x else s[0]
  {
    if s == [] then [x]
    else if s[0].total >= x.total then
      assert s == [s[0]] + s[1..];
      [s[0]] + InsertDesc(s[1..], x)
    else
      [x] + s
  }

  /** Inserting into a list sorted by decreasing total keeps it sorted. */
  lemma {:induction false} InsertDescSorted(s: seq<Scored>, x: Scored)
    requires SortedDesc(s)
    ensures SortedDesc(InsertDesc(s, x))
  {
    if s == [] {
    } else if s[0].total >= x.total {
      SortedDescTail(s);
      InsertDescSorted(s[1..], x);
      SortedDescCons(s[0], InsertDesc(s[1..], x));
    } else {
      SortedDescCons(x, s);
    }
  }

  lemma SortedDescTail(s: seq<Scored>)
    requires SortedDesc(s) && s != []
    ensures SortedDesc(s[1..])
  {
    forall i, j | 0 <= i < j < |s| - 1 ensures s[1..][i].total >= s[1..][j].total {
      assert s[1..][i] == s[i + 1] && s[1..][j] == s[j + 1];
    }
  }

  /** A sorted list stays sorted with a head at least as large as its first element. */
  lemma SortedDescCons(a: Scored, t: seq<Scored>)
    requires SortedDesc(t) && (t == [] || a.total >= t[0].total)
    ensures SortedDesc([a] + t)
  {
    var r := [a] + t;
    forall i, j | 0 <= i < j < |r| ensures r[i].total >= r[j].total {
      assert r[j] == t[j - 1];
      if i > 0 {
        assert r[i] == t[i - 1];
      } else if j > 1 {
        assert t[0].total >= t[j - 1].total;
      }
    }
  }

  /** sort_values('_score_total', ascending=False); the order of ties is left open. */
  method SortByTotal(items: seq<Scored>) returns (sorted: seq<Scored>)
    ensures SortedDesc(sorted)
    ensures multiset(sorted) == multiset(items)
  {
    sorted := [];
    var i := 0;
    while i < |items|
      invariant 0 <= i <= |items|
      invariant SortedDesc(sorted)
      invariant multiset(sorted) == multiset(items[..i])
    {
      assert items[..i + 1] == items[..i] + [items[i]];
      InsertDescSorted(sorted, items[i]);
      sorted := InsertDesc(sorted, items[i]);
      i := i + 1;
    }
    assert items[..i] == items;
  }

  // ------------------------------------------------------------------
  // calculate_rentabilidad
  // ------------------------------------------------------------------

  const AnioColumna := "A\U{F1}o"

  /** The helper columns: the three readings, then the four scores. */
  const Lecturas: seq<string> := ["_precio_num", "_km_num", "_a\U{F1}o_num"]
  const Auxiliares: seq<string> := Lecturas + ["_score_precio", "_score_km", "_score_a\U{F1}o", "_score_total"]

  predicate HasInputs(r: Row) {
    "Precio" in r && "Kilometraje" in r && AnioColumna in r
  }

  /** Without one of these columns the lookup raises KeyError and the input comes back. */
  predicate HasInputColumns(f: Frame) {
    "Precio" in f.columns && "Kilometraje" in f.columns && AnioColumna in f.columns
  }

  function ReadRow(r: Row, repr: real -> string, currentYear: nat): (x: Reading)
    requires HasInputs(r)
    ensures x.price >= 0.0 && x.km >= 0.0
    ensures x.year == 0 || 1990 <= x.year <= currentYear + 1
  {
    Reading(ExtractPrice(r["Precio"], repr), ExtractKm(r["Kilometraje"], repr), ExtractYear(r[AnioColumna], repr, currentYear))
  }

  function Readings(rows: seq<Row>, repr: real -> string, currentYear: nat): (xs: seq<Reading>)
    requires forall i | 0 <= i < |rows| :: HasInputs(rows[i])
    ensures |xs| == |rows|
  {
    if rows == [] then []
    else Readings(rows[..|rows| - 1], repr, currentYear) + [ReadRow(rows[|rows| - 1], repr, currentYear)]
  }

  /** The rows of df_valido, in input order. */
  function UsableRows(rows: seq<Row>, xs: seq<Reading>): (r: seq<Row>)
    requires |rows| == |xs|
    ensures |r| == |Filter(xs, Usable)|
    ensures forall k | 0 <= k < |r| :: r[k] in rows
  {
    if rows == [] then []
    else
      var n := |rows| - 1;
      UsableRows(rows[..n], xs[..n]) + (if Usable(xs[n]) then [rows[n]] else [])
  }

  /** The rows of df_sin_datos, in input order. */
  function UnusableRows(rows: seq<Row>, xs: seq<Reading>): (r: seq<Row>)
    requires |rows| == |xs|
    ensures |r| + |UsableRows(rows, xs)| == |rows|
    ensures forall k | 0 <= k < |r| :: r[k] in rows
  {
    if rows == [] then []
    else
      var n := |rows| - 1;
      UnusableRows(rows[..n], xs[..n]) + (if Usable(xs[n]) then [] else [rows[n]])
  }

  /** A row as published: the category set, every helper column gone. */
  function Label(r: Row, categoria: string): (l: Row)
    ensures forall c :: c in l <==> (c in r || c == "Rentabilidad") && c !in Auxiliares
    ensures l["Rentabilidad"] == Text(categoria)
  {
    r["Rentabilidad" := Text(categoria)] - set c | c in Auxiliares
  }

  /** The usable rows, each labelled with the category of its composite, beside that composite. */
  function Ranked(rows: seq<Row>, xs: seq<Reading>): (s: seq<Scored>)
    requires |rows| == |xs|
    ensures |s| == |UsableRows(rows, xs)|
  {
    var ur, ts := UsableRows(rows, xs), CompositeScores(Filter(xs, Usable));
    seq(|ur|, k requires 0 <= k < |ur| => Scored(Label(ur[k], Categoria(ts[k])), ts[k]))
  }

  /** The unusable rows labelled "Sin datos". */
  function Unranked(rows: seq<Row>, xs: seq<Reading>): (s: seq<Row>)
    requires |rows| == |xs|
    ensures |s| == |UnusableRows(rows, xs)|
  {
    var uu := UnusableRows(rows, xs);
    seq(|uu|, k requires 0 <= k < |uu| => Label(uu[k], "Sin datos"))
  }

  function RowsOf(s: seq<Scored>): (rows: seq<Row>)
    ensures |rows| == |s| && forall k | 0 <= k < |s| :: rows[k] == s[k].row
  {
    seq(|s|, k requires 0 <= k < |s| => s[k].row)
  }

  /** df[name] = value for each name in turn. */
  function AddColumns(columns: seq<string>, names: seq<string>): (r: seq<string>)
    ensures forall c :: c in r <==> c in columns || c in names
    decreases |names|
  {
    if names == [] then columns else AddColumns(ColumnsWith(columns, names[0]), names[1..])
  }

  /** The columns of the ranked frame: helpers and Rentabilidad added, then the helpers dropped. */
  function RankedColumns(columns: seq<string>): (r: seq<string>)
    ensures forall c :: c in r <==> (c in columns || c == "Rentabilidad") && c !in Auxiliares
  {
    ColumnsWithout(AddColumns(columns, Auxiliares + ["Rentabilidad"]), Auxiliares)
  }

  function PriceCells(xs: seq<Reading>): (cs: seq<Cell>)
    ensures |cs| == |xs|
  {
    seq(|xs|, k requires 0 <= k < |xs| => Num(xs[k].price))
  }

  function KmCells(xs: seq<Reading>): (cs: seq<Cell>)
    ensures |cs| == |xs|
  {
    seq(|xs|, k requires 0 <= k < |xs| => Num(xs[k].km))
  }

  function YearCells(xs: seq<Reading>): (cs: seq<Cell>)
    ensures |cs| == |xs|
  {
    seq(|xs|, k requires 0 <= k < |xs| => Num(xs[k].year as real))
  }

  /** The frame with its three reading columns, before any score is computed. */
  function WithReadings(f: Frame, xs: seq<Reading>): (g: Frame)
    requires WellFormed(f) && |xs| == |f.rows|
    ensures WellFormed(g) && |g.rows| == |f.rows|
  {
    SetColumn(SetColumn(SetColumn(f, Lecturas[0], PriceCells(xs)), Lecturas[1], KmCells(xs)), Lecturas[2], YearCells(xs))
  }

  /** No usable row: every row "Sin datos", the reading columns kept, the columns reordered. */
  function NoDataFrame(f: Frame, xs: seq<Reading>): (g: Frame)
    requires WellFormed(f) && |xs| == |f.rows|
    ensures WellFormed(g) && |g.rows| == |f.rows|
  {
    ColumnListsDistinct();
    Reordered(SetColumnConst(WithReadings(f, xs), "Rentabilidad", Text("Sin datos")), ColumnasOrdenadas)
  }

  /**
   * The ranked result, given the order s of the labelled usable rows: s is
   * sorted by composite, highest first, and holds exactly those rows; the
   * unusable rows follow, in input order.
   */
  ghost predicate RankedAs(f: Frame, repr: real -> string, currentYear: nat, g: Frame, s: seq<Scored>)
    requires WellFormed(f) && HasInputColumns(f)
  {
    var xs := Readings(f.rows, repr, currentYear);
    && g.columns == OrderedColumns(ColumnasOrdenadas, RankedColumns(f.columns))
    && SortedDesc(s)
    && multiset(s) == multiset(Ranked(f.rows, xs))
    && g.rows == RowsOf(s) + Unranked(f.rows, xs)
  }

  ghost predicate NoneUsable(f: Frame, repr: real -> string, currentYear: nat)
    requires WellFormed(f) && HasInputColumns(f)
  {
    UsableRows(f.rows, Readings(f.rows, repr, currentYear)) == []
  }

  /**
   * calculate_rentabilidad: an empty frame, or one without the three input
   * columns, comes back unchanged; with no usable row every row is "Sin
   * datos"; otherwise the usable rows come first, by composite, then the rest.
   */
  method CalculateRentabilidad(f: Frame, repr: real -> string, currentYear: nat) returns (g: Frame)
    requires WellFormed(f)
    ensures WellFormed(g)
    ensures IsEmpty(f) || !HasInputColumns(f) ==> g == f
    ensures !IsEmpty(f) && HasInputColumns(f) && NoneUsable(f, repr, currentYear) ==>
      g == NoDataFrame(f, Readings(f.rows, repr, currentYear))
    ensures !IsEmpty(f) && HasInputColumns(f) && !NoneUsable(f, repr, currentYear) ==>
      exists s :: RankedAs(f, repr, currentYear, g, s)
  {
    if IsEmpty(f) || !HasInputColumns(f) {
      return f;
    }
    InputsInEveryRow(f);
    var xs: seq<Reading> := [];
    var usable: seq<Row> := [];
    var i := 0;
    while i < |f.rows|
      invariant 0 <= i <= |f.rows|
      invariant xs == Readings(f.rows[..i], repr, currentYear)
      invariant usable == UsableRows(f.rows[..i], xs)
    {
      var x := ReadRow(f.rows[i], repr, currentYear);
      ReadingsStep(f.rows, i, repr, currentYear);
      var xs' := xs + [x];
      UsableRowsStep(f.rows, i, xs, x);
      if Usable(x) {
        usable := usable + [f.rows[i]];
      }
      xs := xs';
      i := i + 1;
    }
    assert f.rows[..i] == f.rows;
    if usable == [] {
      var h := SetColumnConst(WithReadings(f, xs), "Rentabilidad", Text("Sin datos"));
      var columns := OrderColumns(ColumnasOrdenadas, h.columns);
      g := Frame(columns, h.rows);
      assert g == NoDataFrame(f, xs);
      return;
    }
    var sorted := SortByTotal(Ranked(f.rows, xs));
    RankedColumnsDistinct(f.columns);
    var columns := OrderColumns(ColumnasOrdenadas, RankedColumns(f.columns));
    g := Frame(columns, RowsOf(sorted) + Unranked(f.rows, xs));
    RankedFrameWellFormed(f, xs, sorted, g);
    assert RankedAs(f, repr, currentYear, g, sorted);
  }

  lemma InputsInEveryRow(f: Frame)
    requires WellFormed(f) && HasInputColumns(f)
    ensures forall i | 0 <= i < |f.rows| :: HasInputs(f.rows[i])
  {
    forall i | 0 <= i < |f.rows| ensures HasInputs(f.rows[i]) {
      assert RowFits(f.rows[i], f.columns);
    }
  }

  lemma ReadingsStep(rows: seq<Row>, i: nat, repr: real -> string, currentYear: nat)
    requires i < |rows| && forall k | 0 <= k < |rows| :: HasInputs(rows[k])
    ensures Readings(rows[..i + 1], repr, currentYear) == Readings(rows[..i], repr, currentYear) + [ReadRow(rows[i], repr, currentYear)]
  {
    var p := rows[..i + 1];
    assert p[..|p| - 1] == rows[..i] && p[|p| - 1] == rows[i];
  }

  lemma UsableRowsStep(rows: seq<Row>, i: nat, xs: seq<Reading>, x: Reading)
    requires i < |rows| && |xs| == i
    ensures UsableRows(rows[..i + 1], xs + [x]) == UsableRows(rows[..i], xs) + (if Usable(x) then [rows[i]] else [])
  {
    var p, q := rows[..i + 1], xs + [x];
    assert p[..i] == rows[..i] && q[..i] == xs && p[i] == rows[i] && q[i] == x;
  }

  lemma RankedFrameWellFormed(f: Frame, xs: seq<Reading>, sorted: seq<Scored>, g: Frame)
    requires WellFormed(f) && |xs| == |f.rows|
    requires multiset(sorted) == multiset(Ranked(f.rows, xs))
    requires g == Frame(OrderedColumns(ColumnasOrdenadas, RankedColumns(f.columns)), RowsOf(sorted) + Unranked(f.rows, xs))
    ensures WellFormed(g)
  {
    var rc := RankedColumns(f.columns);
    RankedColumnsDistinct(f.columns);
    ColumnListsDistinct();
    OrderedColumnsPermutation(ColumnasOrdenadas, rc);
    RankedRowsFit(f, xs, sorted);
    FitsReordered(g, rc);
  }

  /** Rows that fit a column list fit any reordering of it without repeats. */
  lemma FitsReordered(g: Frame, cols: seq<string>)
    requires NoDuplicates(g.columns) && forall c :: c in g.columns <==> c in cols
    requires forall k | 0 <= k < |g.rows| :: RowFits(g.rows[k], cols)
    ensures WellFormed(g)
  {
  }

  lemma RankedRowsFit(f: Frame, xs: seq<Reading>, sorted: seq<Scored>)
    requires WellFormed(f) && |xs| == |f.rows|
    requires multiset(sorted) == multiset(Ranked(f.rows, xs))
    ensures var rows := RowsOf(sorted) + Unranked(f.rows, xs);
      forall k | 0 <= k < |rows| :: RowFits(rows[k], RankedColumns(f.columns))
  {
    var a, b, rc := RowsOf(sorted), Unranked(f.rows, xs), RankedColumns(f.columns);
    forall k | 0 <= k < |a| ensures RowFits(a[k], rc) {
      SortedRowFits(f, xs, sorted, k);
    }
    forall k | 0 <= k < |b| ensures RowFits(b[k], rc) {
      UnrankedRowFits(f, xs, k);
    }
    FitsConcat(a, b, rc);
  }

  lemma FitsConcat(a: seq<Row>, b: seq<Row>, cols: seq<string>)
    requires forall k | 0 <= k < |a| :: RowFits(a[k], cols)
    requires forall k | 0 <= k < |b| :: RowFits(b[k], cols)
    ensures forall k | 0 <= k < |a + b| :: RowFits((a + b)[k], cols)
  {
    forall k | 0 <= k < |a + b| ensures RowFits((a + b)[k], cols) {
      if k < |a| {
        assert (a + b)[k] == a[k];
      } else {
        assert (a + b)[k] == b[k - |a|];
      }
    }
  }

  lemma SortedRowFits(f: Frame, xs: seq<Reading>, sorted: seq<Scored>, k: nat)
    requires WellFormed(f) && |xs| == |f.rows|
    requires multiset(sorted) == multiset(Ranked(f.rows, xs)) && k < |sorted|
    ensures RowFits(sorted[k].row, RankedColumns(f.columns))
  {
    var ranked := Ranked(f.rows, xs);
    assert sorted[k] in multiset(ranked);
    var m :| 0 <= m < |ranked| && ranked[m] == sorted[k];
    RankedRowFits(f, xs, m);
  }

  lemma RankedRowFits(f: Frame, xs: seq<Reading>, m: nat)
    requires WellFormed(f) && |xs| == |f.rows| && m < |Ranked(f.rows, xs)|
    ensures RowFits(Ranked(f.rows, xs)[m].row, RankedColumns(f.columns))
  {
    var ur := UsableRows(f.rows, xs);
    assert ur[m] in f.rows;
    var j :| 0 <= j < |f.rows| && f.rows[j] == ur[m];
    assert RowFits(f.rows[j], f.columns);
  }

  lemma UnrankedRowFits(f: Frame, xs: seq<Reading>, m: nat)
    requires WellFormed(f) && |xs| == |f.rows| && m < |Unranked(f.rows, xs)|
    ensures RowFits(Unranked(f.rows, xs)[m], RankedColumns(f.columns))
  {
    var uu := UnusableRows(f.rows, xs);
    assert uu[m] in f.rows;
    var j :| 0 <= j < |f.rows| && f.rows[j] == uu[m];
    assert RowFits(f.rows[j], f.columns);
  }

  lemma RankedColumnsDistinct(columns: seq<string>)
    requires NoDuplicates(columns)
    ensures NoDuplicates(RankedColumns(columns))
  {
    AddColumnsDistinct(columns, Auxiliares + ["Rentabilidad"]);
    ColumnsWithoutDistinct(AddColumns(columns, Auxiliares + ["Rentabilidad"]), Auxiliares);
  }

  lemma {:induction false} AddColumnsDistinct(columns: seq<string>, names: seq<string>)
    requires NoDuplicates(columns)
    ensures NoDuplicates(AddColumns(columns, names))
    decreases |names|
  {
    if names != [] {
      var c := ColumnsWith(columns, names[0]);
      assert NoDuplicates(c) by {
        forall i, j | 0 <= i < j < |c| ensures c[i] != c[j] {
          if j == |columns| { assert c[i] in columns; }
        }
      }
      AddColumnsDistinct(c, names[1..]);
    }
  }

  // ------------------------------------------------------------------
  // What the ranked frame looks like
  // ------------------------------------------------------------------

  /** Each ranked entry is a usable row labelled with the category of its own composite. */
  lemma RankedEntry(rows: seq<Row>, xs: seq<Reading>, m: nat)
    requires |rows| == |xs| && m < |Ranked(rows, xs)|
    ensures Ranked(rows, xs)[m].row == Label(UsableRows(rows, xs)[m], Categoria(Ranked(rows, xs)[m].total))
    ensures 0.0 <= Ranked(rows, xs)[m].total <= 10.0
  {
    CompositeInRange(Filter(xs, Usable), m);
  }

  lemma RowsOfConcat(a: seq<Scored>, b: seq<Scored>)
    ensures RowsOf(a + b) == RowsOf(a) + RowsOf(b)
  {
  }

  /** Reordering the entries reorders their rows the same way. */
  lemma {:induction false} RowsOfPermutation(s: seq<Scored>, t: seq<Scored>)
    requires multiset(s) == multiset(t)
    ensures multiset(RowsOf(s)) == multiset(RowsOf(t))
    decreases |s|
  {
    if s == [] {
      assert |t| == |multiset(t)| == 0;
    } else {
      var k := PermutationSplit(s, t);
      var t' := t[..k] + t[k + 1..];
      RowsOfPermutation(s[1..], t');
      RowsOfRemoveAt(s, 0, s[1..]);
      RowsOfRemoveAt(t, k, t');
    }
  }

  /** Where the first element of s sits in its permutation t, and what is left on both sides. */
  lemma PermutationSplit<T>(s: seq<T>, t: seq<T>) returns (k: nat)
    requires multiset(s) == multiset(t) && s != []
    ensures k < |t| && t[k] == s[0] && multiset(s[1..]) == multiset(t[..k] + t[k + 1..])
  {
    var x := s[0];
    assert x in multiset(s);
    assert x in t;
    k :| 0 <= k < |t| && t[k] == x;
    MultisetRemoveAt(s, 0, s[1..]);
    MultisetRemoveAt(t, k, t[..k] + t[k + 1..]);
    MultisetCancel(multiset(s[1..]), multiset(t[..k] + t[k + 1..]), x);
  }

  lemma MultisetRemoveAt<T>(u: seq<T>, k: nat, rest: seq<T>)
    requires k < |u| && rest == u[..k] + u[k + 1..]
    ensures multiset(u) == multiset(rest) + multiset{u[k]}
  {
    assert u == u[..k] + [u[k]] + u[k + 1..];
  }

  lemma MultisetCancel<T>(a: multiset<T>, b: multiset<T>, x: T)
    requires a + multiset{x} == b + multiset{x}
    ensures a == b
  {
    forall y ensures a[y] == b[y] {
      assert (a + multiset{x})[y] == (b + multiset{x})[y];
    }
  }

  lemma RowsOfRemoveAt(u: seq<Scored>, k: nat, rest: seq<Scored>)
    requires k < |u| && rest == u[..k] + u[k + 1..]
    ensures multiset(RowsOf(u)) == multiset(RowsOf(rest)) + multiset{u[k].row}
  {
    var r := RowsOf(u);
    assert r[..k] + r[k + 1..] == RowsOf(rest);
    MultisetRemoveAt(r, k, r[..k] + r[k + 1..]);
  }

  /** The ranked rows and their order, for given readings. */
  ghost predicate RankedRows(rows: seq<Row>, xs: seq<Reading>, out: seq<Row>, s: seq<Scored>)
    requires |rows| == |xs|
  {
    SortedDesc(s) && multiset(s) == multiset(Ranked(rows, xs)) && out == RowsOf(s) + Unranked(rows, xs)
  }

  /** One published row per input row, a permutation of the labelled usable rows and the "Sin datos" rows. */
  lemma RankedPermutation(rows: seq<Row>, xs: seq<Reading>, out: seq<Row>, s: seq<Scored>)
    requires |rows| == |xs| && RankedRows(rows, xs, out, s)
    ensures |s| == |UsableRows(rows, xs)|
    ensures |out| == |rows|
    ensures multiset(out) == multiset(RowsOf(Ranked(rows, xs))) + multiset(Unranked(rows, xs))
  {
    var ranked := Ranked(rows, xs);
    assert |s| == |ranked| by {
      assert |multiset(s)| == |multiset(ranked)|;
    }
    RowsOfPermutation(s, ranked);
  }

  /** The usable rows come first, each labelled with the category of its own composite. */
  lemma RankedHead(rows: seq<Row>, xs: seq<Reading>, out: seq<Row>, s: seq<Scored>, k: nat)
    requires |rows| == |xs| && RankedRows(rows, xs, out, s) && k < |s|
    ensures out[k] == s[k].row
    ensures exists m | 0 <= m < |UsableRows(rows, xs)| :: out[k] == Label(UsableRows(rows, xs)[m], Categoria(s[k].total))
  {
    var ranked := Ranked(rows, xs);
    assert s[k] in multiset(ranked);
    var m :| 0 <= m < |ranked| && ranked[m] == s[k];
    RankedEntry(rows, xs, m);
    assert out[k] == s[k].row;
    assert out[k] == Label(UsableRows(rows, xs)[m], Categoria(s[k].total));
  }

  /** Down the frame neither the composite nor the category ever rises. */
  lemma RankedOrder(rows: seq<Row>, xs: seq<Reading>, out: seq<Row>, s: seq<Scored>, k1: nat, k2: nat)
    requires |rows| == |xs| && RankedRows(rows, xs, out, s) && k1 < k2 < |s|
    ensures s[k1].total >= s[k2].total
    ensures Reached(Cortes, s[k2].total * 10.0) <= Reached(Cortes, s[k1].total * 10.0)
  {
    SortedOrder(s, k1, k2);
  }

  lemma SortedOrder(s: seq<Scored>, k1: nat, k2: nat)
    requires SortedDesc(s) && k1 < k2 < |s|
    ensures s[k1].total >= s[k2].total
    ensures Reached(Cortes, s[k2].total * 10.0) <= Reached(Cortes, s[k1].total * 10.0)
  {
    ReachedMonotone(Cortes, s[k2].total * 10.0, s[k1].total * 10.0);
  }

  /** After them come the unusable rows, "Sin datos", in input order. */
  lemma RankedTail(rows: seq<Row>, xs: seq<Reading>, out: seq<Row>, s: seq<Scored>)
    requires |rows| == |xs| && RankedRows(rows, xs, out, s)
    ensures forall k | |s| <= k < |out| :: out[k] == Label(UnusableRows(rows, xs)[k - |s|], "Sin datos")
  {
    RankedPermutation(rows, xs, out, s);
    var un := Unranked(rows, xs);
    assert out == RowsOf(s) + un;
    forall k | |s| <= k < |out| ensures out[k] == Label(UnusableRows(rows, xs)[k - |s|], "Sin datos") {
      assert out[k] == un[k - |s|];
    }
  }

  /** The ranked frame of CalculateRentabilidad, in those terms. */
  lemma RankedLayout(f: Frame, repr: real -> string, currentYear: nat, g: Frame, s: seq<Scored>)
    requires WellFormed(f) && HasInputColumns(f) && RankedAs(f, repr, currentYear, g, s)
    ensures RankedRows(f.rows, Readings(f.rows, repr, currentYear), g.rows, s)
    ensures |g.rows| == |f.rows|
  {
    RankedPermutation(f.rows, Readings(f.rows, repr, currentYear), g.rows, s);
  }

  /** With no usable row, every row reads "Sin datos", and the reading columns are published too. */
  lemma NoDataLayout(f: Frame, xs: seq<Reading>)
    requires WellFormed(f) && |xs| == |f.rows|
    ensures forall k | 0 <= k < |f.rows| :: NoDataFrame(f, xs).rows[k] == WithReadings(f, xs).rows[k]["Rentabilidad" := Text("Sin datos")]
    ensures forall c | c in Lecturas :: c in NoDataFrame(f, xs).columns
    ensures "Rentabilidad" in NoDataFrame(f, xs).columns
  {
    var h := SetColumnConst(WithReadings(f, xs), "Rentabilidad", Text("Sin datos"));
    ColumnListsDistinct();
    OrderedColumnsPermutation(ColumnasOrdenadas, h.columns);
    forall c | c in Lecturas || c == "Rentabilidad" ensures c in NoDataFrame(f, xs).columns {
      assert c in h.columns;
      assert c in multiset(h.columns);
    }
  }
}
