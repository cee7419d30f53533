/**
 * The integrated cleaner (LimpiadorIntegrado): the Spanish-format price and
 * mileage parsers, the seller and location tests, the per-model price floor,
 * and clean_data, which runs five row filters in a fixed order and counts
 * what each removed.
 */
module Cleaner {
  import opened Wrappers
  import opened Text
  import opened Seqs
  import opened Patterns
  import opened Frames
  import opened Config

  // ------------------------------------------------------------------
  // Numbers
  // ------------------------------------------------------------------

  /** float(s), with the ValueError caught and turned into 0.0. */
  function FloatOr0(s: string): (r: real)
    ensures r >= 0.0
    ensures (forall i | 0 <= i < |s| :: !IsDigit(s[i])) ==> r == 0.0
  {
    match PyFloat(s)
    case None => 0.0
    case Some(v) => PyFloatNeedsDigit(s); v
  }

  /** float(re.findall(r'\d+', s)[0]), or 0.0 when s has no digit. */
  function FirstRunOr0(s: string): (r: real)
    ensures r >= 0.0
    ensures (forall i | 0 <= i < |s| :: !IsDigit(s[i])) ==> r == 0.0
  {
    match FirstNumber(s)
    case None => 0.0
    case Some(n) => n as real
  }

  /**
   * _extract_price_number on present text. The strip() before the
   * character filter changes nothing, since the filter drops whitespace.
   */
  function ExtractPriceNumber(text: string): (r: real)
    ensures r >= 0.0
  {
    var clean := KeepNumberChars(text);
    if clean == [] then 0.0
    else if '.' in clean && ',' in clean then
      // Spanish decimal "12.500,90", else both separators dropped
      if CountChar(clean, ',') == 1 && |After(clean, ',')| <= 2 then
        FloatOr0(RemoveChar(Before(clean, ','), '.') + "." + After(clean, ','))
      else FloatOr0(RemoveChar(RemoveChar(clean, '.'), ','))
    else if '.' in clean && CountChar(clean, '.') == 1 then
      // One dot: decimal point before one or two digits, thousands separator otherwise
      if |After(clean, '.')| <= 2 then FloatOr0(clean) else FloatOr0(RemoveChar(clean, '.'))
    else if ',' in clean && CountChar(clean, ',') == 1 then
      // One comma: decimal before one or two digits, otherwise the first digit run
      if |After(clean, ',')| <= 2 then FloatOr0(ReplaceChar(clean, ',', '.')) else FirstRunOr0(clean)
    else if IsDigitString(clean) then DigitsValue(clean) as real
    else if '.' in clean && IsDigitString(RemoveChar(clean, '.')) then DigitsValue(RemoveChar(clean, '.')) as real
    else FirstRunOr0(clean)
  }

  /** _extract_price_number on a cell: 0.0 for NaN and empty cells. */
  function PriceNumberOfCell(c: Cell, repr: real -> string): real {
    match PresentText(c, repr)
    case None => 0.0
    case Some(s) => ExtractPriceNumber(s)
  }

  /** _is_valid_price: a present price at or above the floor. */
  function IsValidPrice(c: Cell, minPrice: nat, repr: real -> string): bool {
    PresentText(c, repr).Some? && ExtractPriceNumber(PresentText(c, repr).value) >= minPrice as real
  }

  /**
   * _extract_km_number on present text: three independent tests, the first
   * that applies returning; any float() error ends in 0.0.
   */
  function ExtractKmNumber(text: string): (r: real)
    ensures r >= 0.0
  {
    var clean := KeepNumberChars(text);
    if clean == [] then 0.0
    else if ',' in clean && CountChar(clean, ',') == 1 && |After(clean, ',')| <= 2 then
      FloatOr0(ReplaceChar(clean, ',', '.'))
    else if '.' in clean && CountChar(clean, '.') == 1 then
      if |After(clean, '.')| <= 2 then FloatOr0(clean) else FloatOr0(RemoveChar(clean, '.'))
    else if IsDigitString(clean) then DigitsValue(clean) as real
    else FirstRunOr0(clean)
  }

  /** _is_valid_km: missing mileage is accepted, otherwise it must not exceed the ceiling. */
  function IsValidKm(c: Cell, maxKm: nat, repr: real -> string): bool {
    PresentText(c, repr).None? || ExtractKmNumber(PresentText(c, repr).value) <= maxKm as real
  }

  predicate NoDigit(s: string) {
    forall i | 0 <= i < |s| :: !IsDigit(s[i])
  }

  lemma {:induction false} KeepNumberCharsNoDigit(s: string)
    requires NoDigit(s)
    ensures NoDigit(KeepNumberChars(s))
  {
    if s != [] {
      assert NoDigit(s[1..]) by { assert forall i | 0 <= i < |s| - 1 :: s[1..][i] == s[i + 1]; }
      KeepNumberCharsNoDigit(s[1..]);
    }
  }

  lemma {:induction false} RemoveCharNoDigit(s: string, c: char)
    requires NoDigit(s)
    ensures NoDigit(RemoveChar(s, c))
  {
    if s != [] {
      assert s == [s[0]] + s[1..];
      RemoveCharConcat([s[0]], s[1..], c);
      assert NoDigit(s[1..]) by { assert forall i | 0 <= i < |s| - 1 :: s[1..][i] == s[i + 1]; }
      RemoveCharNoDigit(s[1..], c);
    }
  }

  lemma NoDigitParts(clean: string, c: char)
    requires NoDigit(clean) && c in clean
    ensures NoDigit(Before(clean, c)) && NoDigit(After(clean, c))
    ensures NoDigit(RemoveChar(Before(clean, c), '.') + "." + After(clean, c))
  {
    var b := RemoveChar(Before(clean, c), '.');
    RemoveCharNoDigit(Before(clean, c), '.');
    var t := b + "." + After(clean, c);
    forall i | 0 <= i < |t| ensures !IsDigit(t[i]) {
      if i < |b| { assert t[i] == b[i]; }
      else if i > |b| { assert t[i] == After(clean, c)[i - |b| - 1]; }
    }
  }

  /** _extract_price_number returns 0.0 for text without a digit. */
  lemma ExtractPriceOfDigitless(text: string)
    requires NoDigit(text)
    ensures ExtractPriceNumber(text) == 0.0
  {
    var clean := KeepNumberChars(text);
    KeepNumberCharsNoDigit(text);
    assert !IsDigitString(clean) by { if clean != [] { assert !IsDigit(clean[0]); } }
    if clean != [] {
      if '.' in clean && ',' in clean {
        NoDigitParts(clean, ',');
        RemoveCharNoDigit(clean, '.');
        RemoveCharNoDigit(RemoveChar(clean, '.'), ',');
      } else if '.' in clean && CountChar(clean, '.') == 1 {
        RemoveCharNoDigit(clean, '.');
      } else if ',' in clean && CountChar(clean, ',') == 1 {
        var t := ReplaceChar(clean, ',', '.');
        assert NoDigit(t);
      } else if '.' in clean {
        RemoveCharNoDigit(clean, '.');
        var t := RemoveChar(clean, '.');
        assert !IsDigitString(t) by { if t != [] { assert !IsDigit(t[0]); } }
      }
    }
  }

  /** _extract_km_number returns 0.0 for text without a digit. */
  lemma ExtractKmOfDigitless(text: string)
    requires NoDigit(text)
    ensures ExtractKmNumber(text) == 0.0
  {
    var clean := KeepNumberChars(text);
    KeepNumberCharsNoDigit(text);
    assert !IsDigitString(clean) by { if clean != [] { assert !IsDigit(clean[0]); } }
    RemoveCharNoDigit(clean, '.');
    var t := ReplaceChar(clean, ',', '.');
    assert NoDigit(t);
  }

  /** Text with no digit, dot or comma: what may follow a number without changing its reading. */
  predicate Inert(tail: string) {
    forall i | 0 <= i < |tail| :: !IsDigit(tail[i]) && tail[i] != ',' && tail[i] != '.'
  }

  /** A dot-grouped number followed by inert text, such as "7.690 €", reads back as its value, whatever its size. */
  lemma ExtractPriceOfGrouped(n: nat, tail: string)
    requires Inert(tail)
    ensures ExtractPriceNumber(Grouped(n) + tail) == n as real
  {
    GroupedThenInert(n, tail);
    SameNumberChars(Grouped(n) + tail, Grouped(n));
    GroupedReadsBack(n);
  }

  /** The mileage text the scrapers write, "15.000 km", reads back as its value below one million. */
  lemma ExtractKmOfGrouped(n: nat, tail: string)
    requires Inert(tail) && n < 1000000
    ensures ExtractKmNumber(Grouped(n) + tail) == n as real
  {
    GroupedThenInert(n, tail);
    SameNumberChars(Grouped(n) + tail, Grouped(n));
    GroupedReadsBack(n);
  }

  /** Inert text after a grouped number leaves the number characters as they were. */
  lemma GroupedThenInert(n: nat, tail: string)
    requires Inert(tail)
    ensures KeepNumberChars(Grouped(n) + tail) == Grouped(n) == KeepNumberChars(Grouped(n))
  {
    var g := Grouped(n);
    KeepNumberCharsConcat(g, tail);
    KeepNumberCharsKeeps(g);
    KeepNumberCharsDrops(tail);
  }

  /** Both parsers read only the number characters of their text. */
  lemma SameNumberChars(a: string, b: string)
    requires KeepNumberChars(a) == KeepNumberChars(b)
    ensures ExtractPriceNumber(a) == ExtractPriceNumber(b) && ExtractKmNumber(a) == ExtractKmNumber(b)
  {
    SamePriceChars(a, b);
    SameKmChars(a, b);
  }

  lemma SamePriceChars(a: string, b: string)
    requires KeepNumberChars(a) == KeepNumberChars(b)
    ensures ExtractPriceNumber(a) == ExtractPriceNumber(b)
  {
  }

  lemma SameKmChars(a: string, b: string)
    requires KeepNumberChars(a) == KeepNumberChars(b)
    ensures ExtractKmNumber(a) == ExtractKmNumber(b)
  {
  }

  /** What both parsers do with a grouped number. */
  lemma GroupedReadsBack(n: nat)
    ensures ExtractPriceNumber(Grouped(n)) == n as real
    ensures n < 1000000 ==> ExtractKmNumber(Grouped(n)) == n as real
  {
    var g := Grouped(n);
    KeepNumberCharsKeeps(g);
    assert ',' !in g by { assert forall i | 0 <= i < |g| :: g[i] != ','; }
    GroupedDots(n);
    GroupedDigits(n);
    if n < 1000 {
      assert forall i | 0 <= i < |g| :: g[i] != '.';
      assert IsDigitString(g);
      NoDotRemoved(g);
    } else if n < 1000000 {
      GroupedSplit(n);
      PyFloatOfDigits(RemoveChar(g, '.'));
    } else {
      assert !IsDigitString(g) by { var k := IndexOf(g, '.'); }
      assert |RemoveChar(g, '.')| > 0;
    }
  }

  /** Splitting a + [c] + b on c, when c occurs in neither part. */
  lemma SplitAround(a: string, b: string, c: char)
    requires c !in a && c !in b
    ensures CountChar(a + [c] + b, c) == 1
    ensures Before(a + [c] + b, c) == a && After(a + [c] + b, c) == b
  {
    CountCharConcat(a + [c], b, c);
    CountCharConcat(a, [c], c);
    IndexAfterPrefix(a, b, c);
  }

  /** Digits, one comma, digits: kept whole by the reader's filter, the comma found once. */
  lemma CommaJoined(d: string, t: string)
    requires IsDigitString(d) && AllDigits(t)
    ensures var s := d + [','] + t;
      KeepNumberChars(s) == s && '.' !in s && ',' in s && CountChar(s, ',') == 1
      && After(s, ',') == t && RemoveChar(s, ',') == d + t
  {
    CommaJoinedKept(d, t);
    assert ',' !in d && ',' !in t by {
      assert forall i | 0 <= i < |d| :: d[i] != ',';
      assert forall i | 0 <= i < |t| :: t[i] != ',';
    }
    SplitAround(d, t, ',');
    CommaRemoved(d, t);
  }

  lemma CommaJoinedKept(d: string, t: string)
    requires AllDigits(d) && AllDigits(t)
    ensures var s := d + [','] + t;
      KeepNumberChars(s) == s && '.' !in s && ',' in s
  {
    var s := d + [','] + t;
    forall i | 0 <= i < |s| ensures (IsDigit(s[i]) || s[i] == ',') && s[i] != '.' {
      if i < |d| { assert s[i] == d[i]; } else if i > |d| { assert s[i] == t[i - |d| - 1]; }
    }
    KeepNumberCharsKeeps(s);
    assert s[|d|] == ',';
  }

  lemma CommaRemoved(d: string, t: string)
    requires AllDigits(d) && AllDigits(t)
    ensures RemoveChar(d + [','] + t, ',') == d + t
  {
    var a := d + [','];
    assert RemoveChar(a, ',') == d by {
      RemoveCharConcat(d, [','], ',');
      assert RemoveChar([','], ',') == [] by {
        assert [','][1..] == [];
      }
      NoCommaRemoved(d);
    }
    assert RemoveChar(t, ',') == t by {
      NoCommaRemoved(t);
    }
    RemoveCharConcat(a, t, ',');
  }

  lemma {:induction false} NoCommaRemoved(s: string)
    requires AllDigits(s)
    ensures RemoveChar(s, ',') == s
  {
    if s != [] {
      NoCommaRemoved(s[1..]);
    }
  }
  /**
   * Spanish decimals: a grouped whole part, a comma and one or two decimals,
   * as in "12.500,90" and "19,90", read as the decimal number.
   */
  lemma ExtractPriceSpanishDecimal(n: nat, f: string)
    requires AllDigits(f) && 1 <= |f| <= 2
    ensures ExtractPriceNumber(Grouped(n) + "," + f) == n as real + DigitsValue(f) as real / Pow10(|f|) as real
  {
    var g := Grouped(n);
    var s := g + [','] + f;
    assert g + "," + f == s;
    assert CountChar(s, ',') == 1 && Before(s, ',') == g && After(s, ',') == f by {
      assert forall i | 0 <= i < |g| :: g[i] != ',';
      assert forall i | 0 <= i < |f| :: f[i] != ',';
      SplitAround(g, f, ',');
    }
    GroupedDigits(n);
    GroupedDots(n);
    if n >= 1000 {
      assert OnlyNumberChars(s) by {
        forall i | 0 <= i < |s| ensures IsDigit(s[i]) || s[i] == ',' || s[i] == '.' {
          if i < |g| { assert s[i] == g[i]; } else if i > |g| { assert s[i] == f[i - |g| - 1]; }
        }
      }
      SpanishDecimalGrouped(g, f, n);
    } else {
      assert forall i | 0 <= i < |g| :: g[i] != '.';
      SpanishDecimalPlain(g, f);
      NoDotRemoved(g);
    }
  }

  lemma SpanishDecimalGrouped(g: string, f: string, n: nat)
    requires OnlyNumberChars(g + [','] + f) && '.' in g && AllDigits(f) && |f| <= 2
    requires CountChar(g + [','] + f, ',') == 1 && Before(g + [','] + f, ',') == g && After(g + [','] + f, ',') == f
    requires AllDigits(RemoveChar(g, '.')) && DigitsValue(RemoveChar(g, '.')) == n && n > 0
    ensures ExtractPriceNumber(g + [','] + f) == DecimalValue(RemoveChar(g, '.'), f)
  {
    var s := g + [','] + f;
    KeepNumberCharsKeeps(s);
    assert KeepNumberChars(s) == s;
    assert '.' in s by { assert s[IndexOf(g, '.')] == '.'; }
    assert ',' in s by { assert s[|g|] == ','; }
    var w := RemoveChar(g, '.');
    assert w != [];
    PyFloatDecimal(w, f);
    assert FloatOr0(w + "." + f) == DecimalValue(w, f);
    assert ExtractPriceNumber(s) == FloatOr0(w + "." + f);
  }

  lemma SpanishDecimalPlain(g: string, f: string)
    requires IsDigitString(g) && AllDigits(f) && 1 <= |f| <= 2
    requires CountChar(g + [','] + f, ',') == 1 && After(g + [','] + f, ',') == f
    ensures ExtractPriceNumber(g + [','] + f) == DecimalValue(g, f)
  {
    var s := g + [','] + f;
    assert forall i | 0 <= i < |g| :: g[i] != ',' && g[i] != '.';
    assert forall i | 0 <= i < |f| :: f[i] != ',' && f[i] != '.';
    KeepNumberCharsKeeps(s);
    assert KeepNumberChars(s) == s;
    assert '.' !in s;
    assert ',' in s by { assert s[|g|] == ','; }
    var t := ReplaceChar(s, ',', '.');
    ReplaceSeparator(g, f, ',', '.');
    assert t == g + "." + f;
    PyFloatDecimal(g, f);
    assert FloatOr0(t) == DecimalValue(g, f);
    assert ExtractPriceNumber(s) == FloatOr0(t);
  }

  /** A lone comma before three or more digits is no separator: "7,690" reads as 7. */
  lemma ExtractPriceCommaThousands(d: string, t: string)
    requires IsDigitString(d) && AllDigits(t) && |t| >= 3
    ensures ExtractPriceNumber(d + "," + t) == DigitsValue(d) as real
  {
    assert d + "," + t == d + [','] + t;
    CommaThousands(d, t);
  }

  lemma CommaThousands(d: string, t: string)
    requires IsDigitString(d) && AllDigits(t) && |t| >= 3
    ensures ExtractPriceNumber(d + [','] + t) == DigitsValue(d) as real
  {
    var s := d + [','] + t;
    CommaJoined(d, t);
    LoneCommaBeforeThree(s);
    FirstRunBeforeComma(d, t);
  }

  lemma FirstRunBeforeComma(d: string, t: string)
    requires IsDigitString(d)
    ensures FirstRunOr0(d + [','] + t) == DigitsValue(d) as real
  {
    assert d + [','] + t == d + ([','] + t);
    FirstDigitRunOfDigits(d, [','] + t);
  }

  /** One comma, no dot, three or more characters after the comma: the first digit run is read. */
  lemma LoneCommaBeforeThree(s: string)
    requires KeepNumberChars(s) == s && '.' !in s && ',' in s && CountChar(s, ',') == 1 && |After(s, ',')| > 2
    ensures ExtractPriceNumber(s) == FirstRunOr0(s)
  {
  }

  /** A single dot before one or two digits is a decimal point: "19.90" reads as 19.90. */
  lemma ExtractPriceDotDecimal(d: string, f: string)
    requires IsDigitString(d) && AllDigits(f) && |f| <= 2
    ensures ExtractPriceNumber(d + "." + f) == DigitsValue(d) as real + DigitsValue(f) as real / Pow10(|f|) as real
  {
    var s := d + ['.'] + f;
    assert d + "." + f == s;
    assert forall i | 0 <= i < |d| :: d[i] != ',' && d[i] != '.';
    assert forall i | 0 <= i < |f| :: f[i] != ',' && f[i] != '.';
    KeepNumberCharsKeeps(s);
    SplitAround(d, f, '.');
    assert ',' !in s;
    PyFloatDecimal(d, f);
  }

  /** The sample "7,690" reads as 7, not 7690. */
  lemma ExtractPriceExampleCommaThousands()
    ensures ExtractPriceNumber("7,690") == 7.0
  {
    var d, t := "7", "690";
    assert "7,690" == d + "," + t;
    assert IsDigitString(d) && AllDigits(t) && DigitsValue(d) == 7;
    ExtractPriceCommaThousands(d, t);
  }

  // ------------------------------------------------------------------
  // The price floor
  // ------------------------------------------------------------------

  function Max(a: nat, b: nat): nat { if a >= b then a else b }

  /**
   * _determine_model_min_price: the floor is chosen from the lower-cased
   * model name, first scooters, then large bikes, then 125s, otherwise the
   * model's own minimum raised to the global floor.
   */
  function MinPrice(cfg: ModelConfig): (p: nat)
    ensures p >= PrecioMinimoGlobal
  {
    var l := Lower(cfg.nombre);
    if Contains(l, "agility") || Contains(l, "pcx") then 600
    else if Contains(l, "z900") || Contains(l, "mt-07") || Contains(l, "mt07") then 2500
    else if Contains(l, "125") || Contains(l, "cb125r") then 1000
    else Max(cfg.precioMin, PrecioMinimoGlobal)
  }

  /** The floors the shipped models get. */
  lemma MinPriceShipped()
    ensures MinPrice(CB125R) == 1000 && MinPrice(PCX125) == 600 && MinPrice(AGILITY125) == 600
    ensures MinPrice(Z900) == 2500 && MinPrice(MT07) == 2500
  {
    MinPriceCB125R();
    MinPriceScooters();
    MinPriceZ900();
    MinPriceMT07();
  }

  lemma MinPriceCB125R()
    ensures MinPrice(CB125R) == 1000
  {
    NameCB125R();
    WordsCB125R();
    MinPriceOf125(CB125R);
  }

  lemma WordsCB125R()
    ensures var l := "honda cb125r";
      !Contains(l, "agility") && !Contains(l, "pcx") && !Contains(l, "z900") && !Contains(l, "mt-07")
      && !Contains(l, "mt07") && Contains(l, "125")
  {
    NoScooterWord("honda cb125r");
    NoLargeBikeWord("honda cb125r");
    ContainsAt("honda cb125r", 8, "125");
  }

  /** A name that mentions 125 and neither a scooter nor a large bike gets the 125 floor. */
  lemma MinPriceOf125(cfg: ModelConfig)
    requires var l := Lower(cfg.nombre);
      !Contains(l, "agility") && !Contains(l, "pcx") && !Contains(l, "z900") && !Contains(l, "mt-07")
      && !Contains(l, "mt07") && Contains(l, "125")
    ensures MinPrice(cfg) == 1000
  {
  }

  lemma NameCB125R()
    ensures Lower(CB125R.nombre) == "honda cb125r"
  {
  }

  /** Text without a 'g' names neither scooter. */
  lemma NoScooterWord(l: string)
    requires 'g' !in l && 'p' !in l
    ensures !Contains(l, "agility") && !Contains(l, "pcx")
  {
    NotContainsByChar(l, "agility", 1);
    NotContainsByChar(l, "pcx", 0);
  }

  lemma NoLargeBikeWord(l: string)
    requires 'z' !in l && 'm' !in l
    ensures !Contains(l, "z900") && !Contains(l, "mt-07") && !Contains(l, "mt07")
  {
    NotContainsByChar(l, "z900", 0);
    NotContainsByChar(l, "mt-07", 0);
    NotContainsByChar(l, "mt07", 0);
  }

  lemma MinPriceScooters()
    ensures MinPrice(PCX125) == 600 && MinPrice(AGILITY125) == 600
  {
    NamePCX125();
    NameAGILITY125();
    ContainsAt("honda pcx125", 6, "pcx");
    ContainsAt("kymco agility125", 6, "agility");
  }

  lemma NamePCX125()
    ensures Lower(PCX125.nombre) == "honda pcx125"
  {
  }

  lemma NameAGILITY125()
    ensures Lower(AGILITY125.nombre) == "kymco agility125"
  {
  }

  lemma MinPriceZ900()
    ensures MinPrice(Z900) == 2500
  {
    NameZ900();
    NoScooterWord("kawasaki z900");
    ContainsAt("kawasaki z900", 9, "z900");
  }

  lemma NameZ900()
    ensures Lower(Z900.nombre) == "kawasaki z900"
  {
  }

  lemma MinPriceMT07()
    ensures MinPrice(MT07) == 2500
  {
    NameMT07();
    NoScooterWord("yamaha mt-07");
    NotContainsByChar("yamaha mt-07", "z900", 0);
    ContainsAt("yamaha mt-07", 7, "mt-07");
  }

  lemma NameMT07()
    ensures Lower(MT07.nombre) == "yamaha mt-07"
  {
  }

  // ------------------------------------------------------------------
  // Seller and location
  // ------------------------------------------------------------------

  /** `\bS\.?L\.?\b`, `\bS\.?A\.?\b` and `\bLtd\.?\b` as written: upper-case letters. */
  const UpperCasePatterns: seq<Pattern> := [
    Pattern(Lit("S"), [Step(OptionalDot, Lit("L"))]),
    Pattern(Lit("S"), [Step(OptionalDot, Lit("A"))]),
    Pattern(Lit("Ltd"), [])]

  /** The same three company suffixes, in the lower case of the text they are tried on. */
  const LowerCasePatterns: seq<Pattern> := [
    Pattern(Lit("s"), [Step(OptionalDot, Lit("l"))]),
    Pattern(Lit("s"), [Step(OptionalDot, Lit("a"))]),
    Pattern(Lit("ltd"), [])]

  /** `\b\d{2,3}[\-\s]*\d{3}[\-\s]*\d{3}\b`, one pattern per length of the first group. */
  const CleanerPhonePatterns: seq<Pattern> := [
    Pattern(DigitsN(2), [Step(DashesOrSpaces, DigitsN(3)), Step(DashesOrSpaces, DigitsN(3))]),
    Pattern(DigitsN(3), [Step(DashesOrSpaces, DigitsN(3)), Step(DashesOrSpaces, DigitsN(3))])]

  /** The shape of _is_commercial, for a given list of company-suffix patterns. */
  predicate CommercialWith(c: Cell, repr: real -> string, suffixes: seq<Pattern>) {
    match PresentText(c, repr)
    case None => false
    case Some(t) =>
      var l := Lower(t);
      ContainsAny(l, ComercialesKeywords) || MatchesAny(l, suffixes) || MatchesAny(l, CleanerPhonePatterns)
      || Contains(l, "@")
  }

  /** _is_commercial as written: the upper-case suffix patterns are tried on lower-cased text. */
  predicate IsCommercialAsWritten(c: Cell, repr: real -> string) {
    CommercialWith(c, repr, UpperCasePatterns)
  }

  /** _is_commercial with the suffix patterns in the case of the text they are tried on. */
  predicate IsCommercial(c: Cell, repr: real -> string) {
    CommercialWith(c, repr, LowerCasePatterns)
  }

  /** No upper-case pattern can match lower-cased text, so as written the three suffix patterns never fire. */
  lemma UpperCasePatternsNeverMatch(t: string)
    ensures !MatchesAny(Lower(t), UpperCasePatterns)
  {
    var l := Lower(t);
    LowerHasNoCapital(t, 'S');
    LowerHasNoCapital(t, 'L');
    NoMatchWithoutChar(l, UpperCasePatterns[0], 0);
    NoMatchWithoutChar(l, UpperCasePatterns[1], 0);
    NoMatchWithoutChar(l, UpperCasePatterns[2], 0);
  }

  lemma AsWrittenIgnoresSuffixes(c: Cell, repr: real -> string)
    ensures IsCommercialAsWritten(c, repr) == CommercialWith(c, repr, [])
  {
    if PresentText(c, repr).Some? {
      UpperCasePatternsNeverMatch(PresentText(c, repr).value);
    }
  }

  /**
   * The corrected seller test flags what the test as written flags, and
   * besides it only texts with a company suffix in lower case.
   */
  lemma SellerTestsDiffer(c: Cell, repr: real -> string)
    ensures IsCommercial(c, repr) <==> (IsCommercialAsWritten(c, repr)
      || (PresentText(c, repr).Some? && MatchesAny(Lower(PresentText(c, repr).value), LowerCasePatterns)))
  {
    AsWrittenIgnoresSuffixes(c, repr);
  }

  /** "Motos S.A" passes as a private seller as written, and is caught once the case agrees. */
  lemma SuffixCaseCounterexample(repr: real -> string)
    ensures !IsCommercialAsWritten(Text("Motos S.A"), repr)
    ensures IsCommercial(Text("Motos S.A"), repr)
  {
    SuffixCaseNoKeyword(repr);
    AsWrittenIgnoresSuffixes(Text("Motos S.A"), repr);
    var l := "motos s.a";
    DottedPairAt(l, 6, 's', 'a');
    MatchWitness(l, 6, LowerCasePatterns, 1);
  }

  /** Nothing but a company suffix marks "Motos S.A" as a business. */
  lemma SuffixCaseNoKeyword(repr: real -> string)
    ensures Lower("Motos S.A") == "motos s.a"
    ensures !CommercialWith(Text("Motos S.A"), repr, [])
  {
    var l := "motos s.a";
    assert Lower("Motos S.A") == l;
    NoKeywordInMotosSA();
    assert NoDigit(l);
    NoMatchWithoutDigit(l, CleanerPhonePatterns[0]);
    NoMatchWithoutDigit(l, CleanerPhonePatterns[1]);
    NotContainsByChar(l, "@", 0);
  }

  lemma NoKeywordInMotosSA()
    ensures !ContainsAny("motos s.a", ComercialesKeywords)
  {
    NoEarlyKeywordInMotosSA();
    NoLateKeywordInMotosSA();
  }

  /** The first nine keywords each hold a letter "motos s.a" lacks. */
  lemma NoEarlyKeywordInMotosSA()
    ensures forall k | 0 <= k < 9 :: !Contains("motos s.a", ComercialesKeywords[k])
  {
    var l := "motos s.a";
    forall k | 0 <= k < 9 ensures !Contains(l, ComercialesKeywords[k]) {
      var w := ComercialesKeywords[k];
      if k == 6 { NotContainsByChar(l, w, 3); }
      else if k == 7 { NotContainsByChar(l, w, 4); }
      else if k == 8 { NotContainsByChar(l, w, 1); }
      else { assert w[0] !in l; NotContainsByChar(l, w, 0); }
    }
  }

  /** Of the rest, "s.a." and "sa" need a pair of letters "motos s.a" never has side by side. */
  lemma NoLateKeywordInMotosSA()
    ensures forall k | 9 <= k < |ComercialesKeywords| :: !Contains("motos s.a", ComercialesKeywords[k])
  {
    var l := "motos s.a";
    NotContainsByPair(l, "s.a.", 2);
    NotContainsByPair(l, "sa", 0);
    forall k | 9 <= k < |ComercialesKeywords| ensures !Contains(l, ComercialesKeywords[k]) {
      var w := ComercialesKeywords[k];
      if k == 15 { NotContainsByChar(l, w, 4); }
      else if k == 10 || k == 12 { NotContainsByChar(l, w, 1); }
      else if k == 11 { NotContainsByChar(l, w, 2); }
      else if k == 13 || k == 14 { }
      else { assert w[0] !in l; NotContainsByChar(l, w, 0); }
    }
  }

  /** _is_island_location: some configured island name inside the lower-cased location. */
  predicate IsIslandLocation(c: Cell, repr: real -> string) {
    match PresentText(c, repr)
    case None => false
    case Some(t) => ContainsAny(Lower(t), IslasSpain)
  }

  /** A location with any configured island name inside it, in any letter case, is an island location. */
  lemma IslandNamed(a: string, w: string, k: nat, b: string, repr: real -> string)
    requires k < |IslasSpain| && Lower(w) == IslasSpain[k]
    ensures IsIslandLocation(Text(a + w + b), repr)
  {
    LowerConcat(a + w, b);
    LowerConcat(a, w);
    ContainsInfix(Lower(a), Lower(w), Lower(b));
    assert |Lower(w)| > 0;
    assert a + w + b != "";
  }

  /** A grouped price with its currency tail passes the floor exactly when its value reaches it. */
  lemma PriceThreshold(n: nat, tail: string, minPrice: nat, repr: real -> string)
    requires Inert(tail)
    ensures IsValidPrice(Text(Grouped(n) + tail), minPrice, repr) <==> n >= minPrice
  {
    ExtractPriceOfGrouped(n, tail);
    assert |Grouped(n) + tail| > 0;
  }

  /** A grouped mileage below one million passes the ceiling exactly when it does not exceed it. */
  lemma KmThreshold(n: nat, tail: string, maxKm: nat, repr: real -> string)
    requires Inert(tail) && n < 1000000
    ensures IsValidKm(Text(Grouped(n) + tail), maxKm, repr) <==> n <= maxKm
  {
    ExtractKmOfGrouped(n, tail);
    assert |Grouped(n) + tail| > 0;
  }

  // ------------------------------------------------------------------
  // clean_data
  // ------------------------------------------------------------------

  const Ubicacion := "Ubicaci\U{F3}n"

  /** The row's URL cell; drop_duplicates compares these, NaN equal to NaN. */
  function UrlKey(r: Row): Cell {
    if "URL" in r then r["URL"] else NaN
  }

  /** The row tests of the four filters; a row without the column is kept. */
  function KeepPrice(minPrice: nat, repr: real -> string): Row -> bool {
    (r: Row) => "Precio" !in r || IsValidPrice(r["Precio"], minPrice, repr)
  }

  function KeepSeller(repr: real -> string): Row -> bool {
    (r: Row) => "Vendedor" !in r || !IsCommercial(r["Vendedor"], repr)
  }

  function KeepLocation(repr: real -> string): Row -> bool {
    (r: Row) => Ubicacion !in r || !IsIslandLocation(r[Ubicacion], repr)
  }

  function KeepKm(maxKm: nat, repr: real -> string): Row -> bool {
    (r: Row) => "Kilometraje" !in r || IsValidKm(r["Kilometraje"], maxKm, repr)
  }

  /** A filter that runs only when its column exists. */
  function FilterIf(present: bool, rows: seq<Row>, keep: Row -> bool): (r: seq<Row>)
    ensures |r| <= |rows|
  {
    if present then Filter(rows, keep) else rows
  }

  lemma FilterIfSubseq(present: bool, rows: seq<Row>, keep: Row -> bool)
    ensures IsSubseq(FilterIf(present, rows, keep), rows)
  {
    if present {
      FilterSubseq(rows, keep);
    } else {
      SubseqRefl(rows);
    }
  }

  lemma FilterIfMembers(present: bool, rows: seq<Row>, keep: Row -> bool, x: Row)
    ensures x in FilterIf(present, rows, keep) <==> x in rows && (present ==> keep(x))
  {
    if present {
      FilterMembers(rows, keep, x);
    }
  }

  /** The four row tests of one cleaner, in the order they run. */
  datatype Tests = Tests(price: Row -> bool, seller: Row -> bool, location: Row -> bool, km: Row -> bool)

  /** The tests of a cleaner built for cfg. */
  function CleanerTests(cfg: ModelConfig, repr: real -> string): Tests {
    Tests(KeepPrice(MinPrice(cfg), repr), KeepSeller(repr), KeepLocation(repr), KeepKm(cfg.kmMax, repr))
  }

  /** The rows after each of the five steps, the input first. */
  function Stages(f: Frame, t: Tests): (st: seq<seq<Row>>)
    ensures |st| == 6 && st[0] == f.rows
    ensures forall k | 0 <= k < 5 :: |st[k + 1]| <= |st[k]|
  {
    var r0 := f.rows;
    var r1 := FirstPerUrl(f);
    var r2 := FilterIf("Precio" in f.columns, r1, t.price);
    var r3 := FilterIf("Vendedor" in f.columns, r2, t.seller);
    var r4 := FilterIf(Ubicacion in f.columns, r3, t.location);
    var r5 := FilterIf("Kilometraje" in f.columns, r4, t.km);
    [r0, r1, r2, r3, r4, r5]
  }

  /** The first row of each URL, or every row when there is no URL column. */
  function FirstPerUrl(f: Frame): (r: seq<Row>)
    ensures |r| <= |f.rows|
  {
    if "URL" in f.columns then
      DedupBySubseq(f.rows, UrlKey);
      DedupBy(f.rows, UrlKey)
    else
      f.rows
  }

  lemma FirstPerUrlSubseq(f: Frame)
    ensures IsSubseq(FirstPerUrl(f), f.rows)
  {
    if "URL" in f.columns {
      DedupBySubseq(f.rows, UrlKey);
    } else {
      SubseqRefl(f.rows);
    }
  }

  /** Each step keeps a subsequence of the rows before it. */
  lemma StagesSubseq(f: Frame, t: Tests)
    ensures var st := Stages(f, t);
      forall k | 0 <= k < 5 :: IsSubseq(st[k + 1], st[k])
  {
    var st := Stages(f, t);
    forall k | 0 <= k < 5 ensures IsSubseq(st[k + 1], st[k]) {
      if k == 0 {
        FirstPerUrlSubseq(f);
      } else if k == 1 {
        FilterIfSubseq("Precio" in f.columns, st[1], t.price);
      } else if k == 2 {
        FilterIfSubseq("Vendedor" in f.columns, st[2], t.seller);
      } else if k == 3 {
        FilterIfSubseq(Ubicacion in f.columns, st[3], t.location);
      } else {
        FilterIfSubseq("Kilometraje" in f.columns, st[4], t.km);
      }
    }
  }

  function CleanRows(f: Frame, cfg: ModelConfig, repr: real -> string): seq<Row> {
    Stages(f, CleanerTests(cfg, repr))[5]
  }

  /** The statistics dictionary of clean_data. */
  datatype Stats = Stats(
    inicial: nat,
    eliminadosPrecio: nat,
    eliminadosComercial: nat,
    eliminadosIsla: nat,
    eliminadosKm: nat,
    eliminadosDuplicados: nat,
    totalEliminados: int,
    final: nat,
    precioMinimo: nat,
    kmMaximo: nat)

  /** _create_empty_stats */
  function EmptyStats(precioMinimo: nat): (s: Stats)
    ensures s.inicial == s.final == s.totalEliminados == s.kmMaximo == 0
    ensures s.precioMinimo == precioMinimo
  {
    Stats(0, 0, 0, 0, 0, 0, 0, 0, precioMinimo, 0)
  }

  /** The counters of a run through the given stages: each step's drop, and their total. */
  function StageStats(st: seq<seq<Row>>, precioMinimo: nat, kmMaximo: nat): (s: Stats)
    requires |st| == 6 && forall k | 0 <= k < 5 :: |st[k + 1]| <= |st[k]|
    ensures s.inicial == |st[0]| && s.final == |st[5]|
    ensures s.totalEliminados == s.inicial - s.final >= 0
    ensures s.totalEliminados == s.eliminadosDuplicados + s.eliminadosPrecio + s.eliminadosComercial
      + s.eliminadosIsla + s.eliminadosKm
    ensures s.precioMinimo == precioMinimo && s.kmMaximo == kmMaximo
  {
    Stats(|st[0]|, |st[1]| - |st[2]|, |st[2]| - |st[3]|, |st[3]| - |st[4]|, |st[4]| - |st[5]|,
      |st[0]| - |st[1]|, |st[0]| - |st[5]|, |st[5]|, precioMinimo, kmMaximo)
  }

  function CleanStats(f: Frame, cfg: ModelConfig, repr: real -> string): Stats {
    StageStats(Stages(f, CleanerTests(cfg, repr)), MinPrice(cfg), cfg.kmMax)
  }

  /** One filtering step: when the column is present, keep the passing rows and count the rest. */
  method FilterStep(present: bool, rows: seq<Row>, keep: Row -> bool) returns (kept: seq<Row>, dropped: nat)
    ensures kept == FilterIf(present, rows, keep)
    ensures dropped == |rows| - |kept|
  {
    kept := rows;
    dropped := 0;
    if present {
      kept := Filter(rows, keep);
      dropped := |rows| - |kept|;
    }
  }

  /** The deduplication step: when there is a URL column, keep the first row of each URL. */
  method DedupStep(f: Frame) returns (kept: seq<Row>, dropped: nat)
    ensures kept == FirstPerUrl(f)
    ensures dropped == |f.rows| - |kept|
  {
    kept := f.rows;
    dropped := 0;
    if "URL" in f.columns {
      kept := DedupBy(f.rows, UrlKey);
      dropped := |f.rows| - |kept|;
    }
  }

  /** The five steps of a non-empty run, in order, each counting what it drops. */
  method RunSteps(f: Frame, t: Tests, precioMinimo: nat, kmMaximo: nat) returns (rows: seq<Row>, stats: Stats)
    ensures rows == Stages(f, t)[5] && stats == StageStats(Stages(f, t), precioMinimo, kmMaximo)
  {
    var duplicados, precio, comercial, isla, km;
    rows, duplicados := DedupStep(f);
    rows, precio := FilterStep("Precio" in f.columns, rows, t.price);
    rows, comercial := FilterStep("Vendedor" in f.columns, rows, t.seller);
    rows, isla := FilterStep(Ubicacion in f.columns, rows, t.location);
    rows, km := FilterStep("Kilometraje" in f.columns, rows, t.km);
    stats := Stats(|f.rows|, precio, comercial, isla, km, duplicados, |f.rows| - |rows|, |rows|,
      precioMinimo, kmMaximo);
  }

  /**
   * clean_data of a cleaner built for cfg: an empty frame comes back as it is
   * with empty statistics; otherwise the five steps run in order.
   */
  method CleanData(f: Frame, cfg: ModelConfig, repr: real -> string) returns (g: Frame, stats: Stats)
    requires WellFormed(f)
    ensures WellFormed(g) && g.columns == f.columns
    ensures IsEmpty(f) ==> g == f && stats == EmptyStats(MinPrice(cfg))
    ensures !IsEmpty(f) ==> g.rows == CleanRows(f, cfg, repr) && stats == CleanStats(f, cfg, repr)
  {
    if IsEmpty(f) {
      return f, EmptyStats(MinPrice(cfg));
    }
    var rows;
    rows, stats := RunSteps(f, CleanerTests(cfg, repr), MinPrice(cfg), cfg.kmMax);
    CleanedSubseq(f, cfg, repr);
    SubseqMembers(rows, f.rows);
    g := WithRows(f, rows);
  }

  // ------------------------------------------------------------------
  // What clean_data guarantees
  // ------------------------------------------------------------------

  /** The cleaned rows are input rows, in their original order. */
  lemma CleanedSubseq(f: Frame, cfg: ModelConfig, repr: real -> string)
    ensures IsSubseq(CleanRows(f, cfg, repr), f.rows)
  {
    var st := Stages(f, CleanerTests(cfg, repr));
    StagesSubseq(f, CleanerTests(cfg, repr));
    assert IsSubseq(st[5], st[4]) && IsSubseq(st[4], st[3]) && IsSubseq(st[3], st[2]);
    assert IsSubseq(st[2], st[1]) && IsSubseq(st[1], st[0]);
    SubseqTrans(st[5], st[4], st[3]);
    SubseqTrans(st[5], st[3], st[2]);
    SubseqTrans(st[5], st[2], st[1]);
    SubseqTrans(st[5], st[1], st[0]);
  }

  /** Every test whose column the frame has. */
  predicate PassesAll(f: Frame, cfg: ModelConfig, repr: real -> string, x: Row) {
    ("Precio" in f.columns ==> KeepPrice(MinPrice(cfg), repr)(x))
    && ("Vendedor" in f.columns ==> KeepSeller(repr)(x))
    && (Ubicacion in f.columns ==> KeepLocation(repr)(x))
    && ("Kilometraje" in f.columns ==> KeepKm(cfg.kmMax, repr)(x))
  }

  /** A row survives exactly when it is the first of its URL and passes every present test. */
  lemma CleanedMembers(f: Frame, cfg: ModelConfig, repr: real -> string, x: Row)
    ensures x in CleanRows(f, cfg, repr) <==> x in FirstPerUrl(f) && PassesAll(f, cfg, repr, x)
  {
    var t := CleanerTests(cfg, repr);
    var st := Stages(f, t);
    FilterIfMembers("Precio" in f.columns, st[1], t.price, x);
    FilterIfMembers("Vendedor" in f.columns, st[2], t.seller, x);
    FilterIfMembers(Ubicacion in f.columns, st[3], t.location, x);
    FilterIfMembers("Kilometraje" in f.columns, st[4], t.km, x);
  }

  /** With a URL column, a row survives the deduplication exactly when no earlier row has its URL. */
  lemma FirstPerUrlMembers(f: Frame, x: Row)
    requires "URL" in f.columns
    ensures x in FirstPerUrl(f) <==> exists i | 0 <= i < |f.rows| :: f.rows[i] == x && UrlKey(x) !in Keys(f.rows[..i], UrlKey)
  {
    DedupByMembers(f.rows, UrlKey, x);
  }

  /** No URL appears twice in the output. */
  lemma CleanedUrlsDistinct(f: Frame, cfg: ModelConfig, repr: real -> string)
    requires "URL" in f.columns
    ensures DistinctKeys(CleanRows(f, cfg, repr), UrlKey)
  {
    var st := Stages(f, CleanerTests(cfg, repr));
    StagesSubseq(f, CleanerTests(cfg, repr));
    assert IsSubseq(st[5], st[4]) && IsSubseq(st[4], st[3]) && IsSubseq(st[3], st[2]) && IsSubseq(st[2], st[1]);
    SubseqTrans(st[5], st[4], st[3]);
    SubseqTrans(st[5], st[3], st[2]);
    SubseqTrans(st[5], st[2], st[1]);
    DistinctKeysSubseq(st[5], st[1], UrlKey);
  }

  /** Cleaning the cleaned frame again changes nothing. */
  lemma CleanIdempotent(f: Frame, cfg: ModelConfig, repr: real -> string)
    ensures CleanRows(Frame(f.columns, CleanRows(f, cfg, repr)), cfg, repr) == CleanRows(f, cfg, repr)
  {
    var t := CleanerTests(cfg, repr);
    var rows := CleanRows(f, cfg, repr);
    var h := Frame(f.columns, rows);
    var st := Stages(h, t);
    forall x | x in rows
      ensures ("Precio" in f.columns ==> t.price(x)) && ("Vendedor" in f.columns ==> t.seller(x))
      ensures (Ubicacion in f.columns ==> t.location(x)) && ("Kilometraje" in f.columns ==> t.km(x))
    {
      CleanedMembers(f, cfg, repr, x);
    }
    if "URL" in f.columns {
      CleanedUrlsDistinct(f, cfg, repr);
      DedupByDistinct(rows, UrlKey);
    }
    assert st[1] == rows;
    KeepAllIf("Precio" in f.columns, rows, t.price);
    KeepAllIf("Vendedor" in f.columns, rows, t.seller);
    KeepAllIf(Ubicacion in f.columns, rows, t.location);
    KeepAllIf("Kilometraje" in f.columns, rows, t.km);
  }

  lemma KeepAllIf(present: bool, rows: seq<Row>, keep: Row -> bool)
    requires present ==> forall x | x in rows :: keep(x)
    ensures FilterIf(present, rows, keep) == rows
  {
    if present {
      FilterKeepsAll(rows, keep);
    }
  }
}
