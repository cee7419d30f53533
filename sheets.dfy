/**
 * The presentation helpers of the Google Sheets manager: the category shown
 * for a score, the sheet name of a model, the frame as it is formatted for
 * upload (internal columns dropped, Rentabilidad set, columns reordered), the
 * table of text sent to the sheet, and the average price and kilometres of
 * the metadata block.
 */
module Sheets {
  import opened Wrappers
  import opened Text
  import opened Seqs
  import opened Frames
  import Config
  import BaseScraper

  const NoCalculada := "No calculada"

  // ------------------------------------------------------------------
  // Categories
  // ------------------------------------------------------------------

  /** The four categories, worst first. */
  const Tiers: seq<string> := ["Baja", "Regular", "Buena", "Excelente"]

  /** How many of the thresholds 4, 6 and 8 the score reaches. */
  function CutsReached(x: real): (n: nat)
    ensures n <= 3
  {
    (if x >= 4.0 then 1 else 0) + (if x >= 6.0 then 1 else 0) + (if x >= 8.0 then 1 else 0)
  }

  /** The category of a number: one step up the list for every threshold it reaches. */
  function TierOf(x: real): (category: string)
    ensures category == Tiers[CutsReached(x)]
  {
    if x >= 8.0 then "Excelente" else if x >= 6.0 then "Buena" else if x >= 4.0 then "Regular" else "Baja"
  }

  /** A higher score never gets a lower category. */
  lemma TierMonotone(x: real, y: real)
    requires x <= y
    ensures CutsReached(x) <= CutsReached(y)
    ensures TierOf(x) == Tiers[CutsReached(x)] && TierOf(y) == Tiers[CutsReached(y)]
  {
  }

  /**
   * _score_to_simple_category: "No calculada" for NaN and for text float()
   * rejects, otherwise the category of the number.
   */
  function SimpleCategory(score: Cell): (category: string)
    ensures category == NoCalculada <==> score.NaN? || (score.Text? && PyFloat(score.s).None?)
    ensures category != NoCalculada ==> category in Tiers
    ensures score.Num? ==> category == TierOf(score.r)
    ensures score.Text? && PyFloat(score.s).Some? ==> category == TierOf(PyFloat(score.s).value)
  {
    match score
    case NaN => NoCalculada
    case Num(x) => TierOf(x)
    case Text(s) =>
      match PyFloat(s)
      case None => NoCalculada
      case Some(x) => TierOf(x)
  }

  // ------------------------------------------------------------------
  // The sheet name
  // ------------------------------------------------------------------

  const ModelNames: map<string, string> :=
    map["cb125r" := "CB125R", "pcx125" := "PCX125", "agility125" := "AGILITY125", "z900" := "Z900", "mt07" := "MT07"]

  /** _get_simple_model_name: the fixed name of the five models, else the key upper-cased; the two always agree. */
  function SimpleModelName(key: string): (name: string)
    ensures name == Upper(key)
  {
    if key in ModelNames then
      ModelNamesAreUpper(key);
      ModelNames[key]
    else Upper(key)
  }

  lemma ModelNamesAreUpper(key: string)
    requires key in ModelNames
    ensures ModelNames[key] == Upper(key)
  {
    if key == "cb125r" {
      assert Upper(key) == "CB125R";
    } else if key == "pcx125" {
      assert Upper(key) == "PCX125";
    } else if key == "agility125" {
      assert Upper(key) == "AGILITY125";
    } else if key == "z900" {
      assert Upper(key) == "Z900";
    } else {
      assert Upper(key) == "MT07";
    }
  }

  // ------------------------------------------------------------------
  // Formatting for the sheet
  // ------------------------------------------------------------------

  /**
   * The Rentabilidad cell both the formatter and the runner write in every
   * row: the category of its score, or "No calculada" without a score column.
   */
  function SimpleCategories(f: Frame): (cs: seq<Cell>)
    requires WellFormed(f)
    ensures |cs| == |f.rows|
    ensures "Rentabilidad_Score" !in f.columns ==> forall i | 0 <= i < |cs| :: cs[i] == Text(NoCalculada)
    ensures "Rentabilidad_Score" in f.columns ==>
      forall i | 0 <= i < |cs| :: RowFits(f.rows[i], f.columns) && cs[i] == Text(SimpleCategory(f.rows[i]["Rentabilidad_Score"]))
  {
    if "Rentabilidad_Score" in f.columns then
      var score := Column(f, "Rentabilidad_Score");
      seq(|f.rows|, i requires 0 <= i < |f.rows| => Text(SimpleCategory(score[i])))
    else seq(|f.rows|, i => Text(NoCalculada))
  }

  /** The frame _format_dataframe_for_sheets returns. */
  function Formatted(f: Frame): (g: Frame)
    requires WellFormed(f)
    ensures WellFormed(g)
  {
    Config.ColumnListsDistinct();
    Reordered(SetColumn(DropColumns(f, Config.ColumnasExcluidas), "Rentabilidad", SimpleCategories(f)), Config.ColumnasOrdenadas)
  }

  /**
   * _format_dataframe_for_sheets: drops the internal columns one by one,
   * sets Rentabilidad, then lists the desired columns that exist followed by
   * every other column.
   */
  method FormatForSheets(f: Frame) returns (g: Frame)
    requires WellFormed(f)
    ensures g == Formatted(f)
  {
    var h := DropEach(f, Config.ColumnasExcluidas);
    h := SetColumn(h, "Rentabilidad", SimpleCategories(f));
    Config.ColumnListsDistinct();
    var columns := OrderColumns(Config.ColumnasOrdenadas, h.columns);
    g := Frame(columns, h.rows);
  }

  /**
   * The formatted frame has no internal column and has Rentabilidad; it
   * keeps every other column once, the desired ones first; each row is the
   * input row without the internal columns and with its category.
   */
  lemma FormattedLayout(f: Frame)
    requires WellFormed(f)
    ensures var g := Formatted(f);
      && |g.rows| == |f.rows|
      && (forall c :: c in g.columns <==> (c in f.columns && c !in Config.ColumnasExcluidas) || c == "Rentabilidad")
      && (forall i | 0 <= i < |f.rows| ::
            g.rows[i] == (f.rows[i] - set c | c in Config.ColumnasExcluidas)["Rentabilidad" := SimpleCategories(f)[i]])
  {
  }

  /** The desired columns that exist come first, in the desired order. */
  lemma FormattedOrder(f: Frame)
    requires WellFormed(f)
    ensures var g, h := Formatted(f), SetColumn(DropColumns(f, Config.ColumnasExcluidas), "Rentabilidad", SimpleCategories(f));
      && g.columns[..|PresentColumns(Config.ColumnasOrdenadas, h.columns)|] == PresentColumns(Config.ColumnasOrdenadas, h.columns)
      && forall k | 0 <= k < |g.columns| :: g.columns[k] in Config.ColumnasOrdenadas <==> k < |PresentColumns(Config.ColumnasOrdenadas, h.columns)|
  {
    var h := SetColumn(DropColumns(f, Config.ColumnasExcluidas), "Rentabilidad", SimpleCategories(f));
    Config.ColumnListsDistinct();
    OrderedColumnsPermutation(Config.ColumnasOrdenadas, h.columns);
  }

  /** A frame with a title column shows it first. */
  lemma FormattedTitleFirst(f: Frame)
    requires WellFormed(f) && "T\U{ED}tulo" in f.columns
    ensures Formatted(f).columns[0] == "T\U{ED}tulo"
  {
    var h := SetColumn(DropColumns(f, Config.ColumnasExcluidas), "Rentabilidad", SimpleCategories(f));
    assert "T\U{ED}tulo" !in Config.ColumnasExcluidas;
    PresentColumnsHead(Config.ColumnasOrdenadas, h.columns);
  }

  /**
   * Without a Rentabilidad_Score column, which the calculator never
   * outputs, every row of the sheet reads "No calculada".
   */
  lemma CategoryNotComputed(f: Frame)
    requires WellFormed(f) && "Rentabilidad_Score" !in f.columns
    ensures forall i | 0 <= i < |Formatted(f).rows| :: Formatted(f).rows[i]["Rentabilidad"] == Text(NoCalculada)
  {
  }

  // ------------------------------------------------------------------
  // The table sent to the sheet
  // ------------------------------------------------------------------

  /** A cell as the sheet receives it: "" for NaN, str(cell) otherwise. */
  function CellText(c: Cell, repr: real -> string): string {
    match c
    case NaN => ""
    case Text(s) => s
    case Num(x) => repr(x)
  }

  /** One row's cells as text, in column order. */
  method CleanRow(r: Row, columns: seq<string>, repr: real -> string) returns (clean: seq<string>)
    requires RowFits(r, columns)
    ensures |clean| == |columns| && forall j | 0 <= j < |columns| :: clean[j] == CellText(r[columns[j]], repr)
  {
    clean := [];
    var j := 0;
    while j < |columns|
      invariant 0 <= j <= |columns| && |clean| == j
      invariant forall k | 0 <= k < j :: clean[k] == CellText(r[columns[k]], repr)
    {
      clean := clean + [CellText(r[columns[j]], repr)];
      j := j + 1;
    }
  }

  /** [headers] + clean_data_rows: the header, then one line of text per row. */
  method UploadTable(f: Frame, repr: real -> string) returns (table: seq<seq<string>>)
    requires WellFormed(f)
    ensures |table| == |f.rows| + 1 && table[0] == f.columns
    ensures forall i | 1 <= i < |table| :: |table[i]| == |f.columns|
    ensures forall i, j | 1 <= i < |table| && 0 <= j < |f.columns| :: table[i][j] == CellText(f.rows[i - 1][f.columns[j]], repr)
  {
    var clean: seq<seq<string>> := [];
    var i := 0;
    while i < |f.rows|
      invariant 0 <= i <= |f.rows| && |clean| == i
      invariant forall k | 0 <= k < i :: |clean[k]| == |f.columns|
      invariant forall k, j | 0 <= k < i && 0 <= j < |f.columns| :: clean[k][j] == CellText(f.rows[k][f.columns[j]], repr)
    {
      assert RowFits(f.rows[i], f.columns);
      var row := CleanRow(f.rows[i], f.columns, repr);
      clean := clean + [row];
      i := i + 1;
    }
    table := [f.columns] + clean;
  }

  // ------------------------------------------------------------------
  // Averages
  // ------------------------------------------------------------------

  /**
   * The number the averages read from a cell: the first run of digits of
   * str(cell) once dots and commas are deleted; NaN and the placeholder are
   * skipped.
   */
  function Reading(c: Cell, repr: real -> string): Option<nat> {
    match c
    case NaN => None
    case Text(s) => if s == BaseScraper.NoEspecificado then None else FirstNumber(RemoveChar(RemoveChar(s, '.'), ','))
    case Num(x) => FirstNumber(RemoveChar(RemoveChar(repr(x), '.'), ','))
  }

  /** The reading of a cell when it lies in [lo, hi]. */
  function Kept(c: Cell, lo: nat, hi: nat, repr: real -> string): (k: Option<nat>)
    ensures k.Some? ==> lo <= k.value <= hi && Reading(c, repr) == k
    ensures k.None? ==> Reading(c, repr).None? || !(lo <= Reading(c, repr).value <= hi)
  {
    match Reading(c, repr)
    case Some(v) => if lo <= v <= hi then Some(v) else None
    case None => None
  }

  /** The values a partial reading yields over a list, in order. */
  function Collected<A, B>(s: seq<A>, read: A -> Option<B>): (r: seq<B>)
    ensures |r| <= |s|
  {
    if s == [] then []
    else Collected(s[..|s| - 1], read) + match read(s[|s| - 1]) case Some(v) => [v] case None => []
  }

  lemma CollectedStep<A, B>(s: seq<A>, read: A -> Option<B>, i: nat)
    requires i < |s|
    ensures Collected(s[..i + 1], read) == Collected(s[..i], read) + match read(s[i]) case Some(v) => [v] case None => []
  {
    assert s[..i + 1][..i] == s[..i];
  }

  /** A value is collected exactly when some element reads as it. */
  lemma {:induction false} CollectedMembers<A, B>(s: seq<A>, read: A -> Option<B>, v: B)
    ensures v in Collected(s, read) <==> exists i | 0 <= i < |s| :: read(s[i]) == Some(v)
  {
    if s != [] {
      var front, last := s[..|s| - 1], s[|s| - 1];
      CollectedMembers(front, read, v);
      if v in Collected(front, read) {
        var i :| 0 <= i < |front| && read(front[i]) == Some(v);
        assert s[i] == front[i];
      }
      if v !in Collected(s, read) {
        forall i | 0 <= i < |s| ensures read(s[i]) != Some(v) {
          if i < |front| {
            assert s[i] == front[i];
          }
        }
      }
    }
  }

  /** The readings within [lo, hi], in row order. */
  function Accepted(cells: seq<Cell>, lo: nat, hi: nat, repr: real -> string): (vs: seq<nat>)
    ensures |vs| <= |cells|
  {
    Collected(cells, c => Kept(c, lo, hi, repr))
  }

  /** A value is accepted exactly when some cell reads as it within the range; so all lie in the range. */
  lemma AcceptedMembers(cells: seq<Cell>, lo: nat, hi: nat, repr: real -> string)
    ensures forall v: nat :: v in Accepted(cells, lo, hi, repr) <==> exists i | 0 <= i < |cells| :: Kept(cells[i], lo, hi, repr) == Some(v)
    ensures forall k | 0 <= k < |Accepted(cells, lo, hi, repr)| :: lo <= Accepted(cells, lo, hi, repr)[k] <= hi
  {
    var vs := Accepted(cells, lo, hi, repr);
    forall v: nat ensures v in vs <==> exists i | 0 <= i < |cells| :: Kept(cells[i], lo, hi, repr) == Some(v) {
      CollectedMembers(cells, c => Kept(c, lo, hi, repr), v);
    }
    forall k | 0 <= k < |vs| ensures lo <= vs[k] <= hi {
      assert vs[k] in vs;
      var i :| 0 <= i < |cells| && Kept(cells[i], lo, hi, repr) == Some(vs[k]);
    }
  }

  function Sum(vs: seq<nat>): nat {
    if vs == [] then 0 else Sum(vs[..|vs| - 1]) + vs[|vs| - 1]
  }

  /** sum(values) / len(values), or 0.0 for none. */
  function Mean(vs: seq<nat>): real {
    if vs == [] then 0.0 else Sum(vs) as real / |vs| as real
  }

  lemma {:induction false} SumAtLeast(vs: seq<nat>, lo: nat)
    requires forall k | 0 <= k < |vs| :: lo <= vs[k]
    ensures lo * |vs| <= Sum(vs)
  {
    if vs != [] {
      SumAtLeast(vs[..|vs| - 1], lo);
      assert lo * |vs| == lo * (|vs| - 1) + lo;
    }
  }

  lemma {:induction false} SumAtMost(vs: seq<nat>, hi: nat)
    requires forall k | 0 <= k < |vs| :: vs[k] <= hi
    ensures Sum(vs) <= hi * |vs|
  {
    if vs != [] {
      SumAtMost(vs[..|vs| - 1], hi);
      assert hi * |vs| == hi * (|vs| - 1) + hi;
    }
  }

  /** The mean of values in [lo, hi] lies in [lo, hi]. */
  lemma MeanWithin(vs: seq<nat>, lo: nat, hi: nat)
    requires vs != [] && forall k | 0 <= k < |vs| :: lo <= vs[k] <= hi
    ensures lo as real <= Mean(vs) <= hi as real
  {
    RealSumAtLeast(vs, lo);
    RealSumAtMost(vs, hi);
    DivideWithin(Sum(vs) as real, |vs| as real, lo as real, hi as real);
  }

  lemma RealSumAtLeast(vs: seq<nat>, lo: nat)
    requires forall k | 0 <= k < |vs| :: lo <= vs[k]
    ensures lo as real * |vs| as real <= Sum(vs) as real
  {
    SumAtLeast(vs, lo);
    CastProduct(lo, |vs|);
  }

  lemma RealSumAtMost(vs: seq<nat>, hi: nat)
    requires forall k | 0 <= k < |vs| :: vs[k] <= hi
    ensures Sum(vs) as real <= hi as real * |vs| as real
  {
    SumAtMost(vs, hi);
    CastProduct(hi, |vs|);
  }

  lemma CastProduct(a: nat, b: nat)
    ensures (a * b) as real == a as real * b as real
  {
  }

  lemma DivideWithin(s: real, n: real, lo: real, hi: real)
    requires n > 0.0 && lo * n <= s <= hi * n
    ensures lo <= s / n <= hi
  {
    assert s / n * n == s;
  }

  /** The mean of values of at least lo > 0 is positive exactly when there is a value. */
  lemma MeanPositive(vs: seq<nat>, lo: nat)
    requires forall k | 0 <= k < |vs| :: lo <= vs[k]
    requires lo > 0
    ensures Mean(vs) > 0.0 <==> vs != []
  {
    if vs != [] {
      SumAtLeast(vs, lo);
      assert lo * |vs| >= 1;
      DividePositive(Sum(vs) as real, |vs| as real);
    }
  }

  lemma DividePositive(s: real, n: real)
    requires s > 0.0 && n > 0.0
    ensures s / n > 0.0
  {
  }

  /**
   * The loop of the average helpers: the mean of the accepted readings of
   * the column, and 0.0 without the column or without any accepted reading.
   */
  method AverageOf(f: Frame, column: string, lo: nat, hi: nat, repr: real -> string) returns (avg: real)
    requires WellFormed(f)
    ensures column !in f.columns ==> avg == 0.0
    ensures column in f.columns ==> avg == Mean(Accepted(Column(f, column), lo, hi, repr))
  {
    if column !in f.columns {
      return 0.0;
    }
    var cells := Column(f, column);
    var values: seq<nat> := [];
    var i := 0;
    while i < |cells|
      invariant 0 <= i <= |cells|
      invariant values == Accepted(cells[..i], lo, hi, repr)
    {
      CollectedStep(cells, c => Kept(c, lo, hi, repr), i);
      var reading := Reading(cells[i], repr);
      if reading.Some? && lo <= reading.value <= hi {
        values := values + [reading.value];
      }
      i := i + 1;
    }
    assert cells[..i] == cells;
    avg := if values != [] then Sum(values) as real / |values| as real else 0.0;
  }

  /**
   * _calculate_average_price: the mean of the prices read in [500, 60000];
   * 0.0, shown as "N/A", exactly when none is.
   */
  method CalculateAveragePrice(f: Frame, repr: real -> string) returns (avg: real)
    requires WellFormed(f)
    ensures "Precio" !in f.columns ==> avg == 0.0
    ensures "Precio" in f.columns ==> avg == Mean(Accepted(Column(f, "Precio"), 500, 60000, repr))
    ensures avg == 0.0 || 500.0 <= avg <= 60000.0
    ensures avg > 0.0 <==> "Precio" in f.columns && Accepted(Column(f, "Precio"), 500, 60000, repr) != []
  {
    avg := AverageOf(f, "Precio", 500, 60000, repr);
    if "Precio" in f.columns {
      var vs := Accepted(Column(f, "Precio"), 500, 60000, repr);
      AcceptedMembers(Column(f, "Precio"), 500, 60000, repr);
      if vs != [] {
        MeanWithin(vs, 500, 60000);
      }
      MeanPositive(vs, 500);
    }
  }

  /** _calculate_average_km: the mean of the kilometres read in [0, 200000], 0.0 when none is. */
  method CalculateAverageKm(f: Frame, repr: real -> string) returns (avg: real)
    requires WellFormed(f)
    ensures "Kilometraje" !in f.columns ==> avg == 0.0
    ensures "Kilometraje" in f.columns ==> avg == Mean(Accepted(Column(f, "Kilometraje"), 0, 200000, repr))
    ensures 0.0 <= avg <= 200000.0
  {
    avg := AverageOf(f, "Kilometraje", 0, 200000, repr);
    if "Kilometraje" in f.columns {
      var vs := Accepted(Column(f, "Kilometraje"), 0, 200000, repr);
      AcceptedMembers(Column(f, "Kilometraje"), 0, 200000, repr);
      if vs != [] {
        MeanWithin(vs, 0, 200000);
      }
    }
  }
}
