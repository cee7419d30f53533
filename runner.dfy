/**
 * The runner's own steps between scraping and upload: the test-mode limit on
 * the scraped rows, the simplified category it writes over the calculator's
 * result, the formatting of the local copy, and the sheet name.
 *
 * The runner's _score_to_category_fast and _get_simple_model_name_fast are
 * the Sheets manager's _score_to_simple_category and _get_simple_model_name
 * line for line; the model uses Sheets.SimpleCategory and
 * Sheets.SimpleModelName for both.
 */
module Runner {
  import opened Seqs
  import opened Frames
  import Config
  import Scorer
  import Sheets
  import Strings = Text

  // ------------------------------------------------------------------
  // Test mode
  // ------------------------------------------------------------------

  const TestModeRows: nat := 20

  /** The scraped frame, cut to its first 20 rows in test mode unless it is empty. */
  function ScrapedResults(df: Frame, testMode: bool): (g: Frame)
    requires WellFormed(df)
    ensures WellFormed(g) && g.columns == df.columns
    ensures !testMode || IsEmpty(df) ==> g == df
    ensures testMode && !IsEmpty(df) ==>
      |g.rows| == (if |df.rows| < TestModeRows then |df.rows| else TestModeRows) && g.rows == df.rows[..|g.rows|]
  {
    if testMode && !IsEmpty(df) then Head(df, TestModeRows) else df
  }

  // ------------------------------------------------------------------
  // The category written after the calculator
  // ------------------------------------------------------------------

  /** What the calculator may return for f, case by case. */
  ghost predicate CalculatorOutput(f: Frame, repr: real -> string, currentYear: nat, d: Frame)
    requires WellFormed(f)
  {
    && WellFormed(d)
    && if IsEmpty(f) || !Scorer.HasInputColumns(f) then d == f
       else
         Scorer.InputsInEveryRow(f);
         if Scorer.NoneUsable(f, repr, currentYear) then d == Scorer.NoDataFrame(f, Scorer.Readings(f.rows, repr, currentYear))
         else exists s :: Scorer.RankedAs(f, repr, currentYear, d, s)
  }

  /** df['Rentabilidad'] set from the score column if there is one, else to "No calculada". */
  function WithSimpleCategory(d: Frame): (g: Frame)
    requires WellFormed(d)
    ensures WellFormed(g) && g.columns == ColumnsWith(d.columns, "Rentabilidad") && |g.rows| == |d.rows|
    ensures forall i | 0 <= i < |d.rows| :: g.rows[i] == d.rows[i]["Rentabilidad" := Sheets.SimpleCategories(d)[i]]
  {
    SetColumn(d, "Rentabilidad", Sheets.SimpleCategories(d))
  }

  /**
   * _calculate_rentabilidad_fast: the calculator's result with its category
   * replaced; the cleaned frame itself when the calculator raises. As no
   * input to the calculator has a Rentabilidad_Score column, every row ends
   * up "No calculada".
   */
  method CalculateRentabilidadFast(f: Frame, repr: real -> string, currentYear: nat, calculatorRaises: bool)
    returns (g: Frame)
    requires WellFormed(f)
    ensures calculatorRaises ==> g == f
    ensures !calculatorRaises ==> exists d :: CalculatorOutput(f, repr, currentYear, d) && g == WithSimpleCategory(d)
    ensures |g.rows| == |f.rows|
    ensures !calculatorRaises && "Rentabilidad_Score" !in f.columns ==>
      forall i | 0 <= i < |g.rows| :: g.rows[i]["Rentabilidad"] == Frames.Text(Sheets.NoCalculada)
  {
    if calculatorRaises {
      return f;
    }
    var d := Scorer.CalculateRentabilidad(f, repr, currentYear);
    g := WithSimpleCategory(d);
    assert CalculatorOutput(f, repr, currentYear, d);
    CalculatorKeepsRows(f, repr, currentYear, d);
    if "Rentabilidad_Score" !in f.columns {
      ScoreColumnNeverAdded(f, repr, currentYear, d);
      NoScoreNoCategory(d);
    }
  }

  /** Whatever branch the calculator takes, it keeps one row per listing. */
  lemma CalculatorKeepsRows(f: Frame, repr: real -> string, currentYear: nat, d: Frame)
    requires WellFormed(f) && CalculatorOutput(f, repr, currentYear, d)
    ensures |d.rows| == |f.rows|
  {
    if !IsEmpty(f) && Scorer.HasInputColumns(f) && !Scorer.NoneUsable(f, repr, currentYear) {
      var s :| Scorer.RankedAs(f, repr, currentYear, d, s);
      Scorer.RankedLayout(f, repr, currentYear, d, s);
    }
  }

  lemma NoScoreNoCategory(d: Frame)
    requires WellFormed(d) && "Rentabilidad_Score" !in d.columns
    ensures forall i | 0 <= i < |WithSimpleCategory(d).rows| :: WithSimpleCategory(d).rows[i]["Rentabilidad"] == Frames.Text(Sheets.NoCalculada)
  {
  }

  /** The calculator never adds a Rentabilidad_Score column. */
  lemma ScoreColumnNeverAdded(f: Frame, repr: real -> string, currentYear: nat, d: Frame)
    requires WellFormed(f) && CalculatorOutput(f, repr, currentYear, d)
    requires "Rentabilidad_Score" !in f.columns
    ensures "Rentabilidad_Score" !in d.columns
  {
    if !IsEmpty(f) && Scorer.HasInputColumns(f) {
      Scorer.InputsInEveryRow(f);
      var xs := Scorer.Readings(f.rows, repr, currentYear);
      if Scorer.NoneUsable(f, repr, currentYear) {
        NoDataColumns(f, xs);
      } else {
        var s :| Scorer.RankedAs(f, repr, currentYear, d, s);
        RankedColumnsMembers(f.columns);
      }
    }
  }

  lemma NoDataColumns(f: Frame, xs: seq<Scorer.Reading>)
    requires WellFormed(f) && |xs| == |f.rows| && "Rentabilidad_Score" !in f.columns
    ensures "Rentabilidad_Score" !in Scorer.NoDataFrame(f, xs).columns
  {
    var h := SetColumnConst(Scorer.WithReadings(f, xs), "Rentabilidad", Frames.Text("Sin datos"));
    OrderedColumnsMembers(Config.ColumnasOrdenadas, h.columns);
  }

  lemma RankedColumnsMembers(columns: seq<string>)
    requires "Rentabilidad_Score" !in columns
    ensures "Rentabilidad_Score" !in OrderedColumns(Config.ColumnasOrdenadas, Scorer.RankedColumns(columns))
  {
    OrderedColumnsMembers(Config.ColumnasOrdenadas, Scorer.RankedColumns(columns));
  }

  // ------------------------------------------------------------------
  // The local copy
  // ------------------------------------------------------------------

  /** The order of the local copy: the title and location columns unaccented. */
  const SaveColumns: seq<string> := ["Titulo", "Precio", "Kilometraje", "A\U{F1}o", "Rentabilidad",
    "Vendedor", "Ubicacion", "Fecha_Publicacion", "URL", "Fecha_Extraccion"]

  lemma SaveColumnsDistinct()
    ensures NoDuplicates(SaveColumns)
  {
    var l := SaveColumns;
    forall i, j | 0 <= i < j < |l| ensures l[i] != l[j] {
      assert |l[i]| != |l[j]| || l[i][0] != l[j][0];
    }
  }

  /** The frame _format_dataframe_for_save_fast returns. */
  function FormattedForSave(f: Frame): (g: Frame)
    requires WellFormed(f)
    ensures WellFormed(g)
  {
    SaveColumnsDistinct();
    Reordered(DropColumns(f, Config.ColumnasExcluidas), SaveColumns)
  }

  /**
   * _format_dataframe_for_save_fast: drops the internal columns one by one,
   * then lists the desired columns that exist followed by every other column.
   */
  method FormatForSave(f: Frame) returns (g: Frame)
    requires WellFormed(f)
    ensures g == FormattedForSave(f)
  {
    var h := DropEach(f, Config.ColumnasExcluidas);
    SaveColumnsDistinct();
    var columns := OrderColumns(SaveColumns, h.columns);
    g := Frame(columns, h.rows);
  }

  /**
   * The local copy keeps every column but the internal ones, each once, and
   * its rows are the input rows without them; the accented Título and
   * Ubicación the scraper writes are not among the desired names, so they
   * come after every desired column.
   */
  lemma SaveLayout(f: Frame)
    requires WellFormed(f)
    ensures var g := FormattedForSave(f);
      && (forall c :: c in g.columns <==> c in f.columns && c !in Config.ColumnasExcluidas)
      && |g.rows| == |f.rows|
      && (forall i | 0 <= i < |f.rows| :: g.rows[i] == f.rows[i] - set c | c in Config.ColumnasExcluidas)
      && forall k, j | 0 <= j < k < |g.columns| :: g.columns[k] in SaveColumns ==> g.columns[j] in SaveColumns
  {
    var h := DropColumns(f, Config.ColumnasExcluidas);
    SaveColumnsDistinct();
    OrderedColumnsPermutation(SaveColumns, h.columns);
  }

  lemma AccentedNamesTrail(f: Frame)
    requires WellFormed(f)
    ensures forall k | 0 <= k < |FormattedForSave(f).columns| ::
      FormattedForSave(f).columns[k] in Accented ==>
        k >= |PresentColumns(SaveColumns, DropColumns(f, Config.ColumnasExcluidas).columns)|
  {
    var h := DropColumns(f, Config.ColumnasExcluidas);
    SaveColumnsDistinct();
    OrderedColumnsPermutation(SaveColumns, h.columns);
    AccentedNotSaved();
  }

  /** The names the scraper writes for the title and location columns. */
  const Accented: seq<string> := ["T\U{ED}tulo", "Ubicaci\U{F3}n"]

  lemma AccentedNotSaved()
    ensures forall c | c in Accented :: c !in SaveColumns
  {
    assert Accented[0][1] != SaveColumns[0][1];
    assert Accented[1][7] != SaveColumns[6][7];
  }

  // ------------------------------------------------------------------
  // The sheet name
  // ------------------------------------------------------------------

  /** f"{modelo_simple} {fecha_actual}": the key upper-cased, a space, and the date as given. */
  function SheetName(modeloKey: string, fecha: string): (name: string)
    ensures name == Strings.Upper(modeloKey) + " " + fecha
  {
    Sheets.SimpleModelName(modeloKey) + " " + fecha
  }
}
