/**
 * The part of a pandas DataFrame the pipeline relies on: named columns in an
 * order, rows that give a cell for every column, and the column edits the
 * pipeline makes (drop, assign, reorder). A row is a map from column name to
 * cell, so reordering columns never touches the rows.
 */
module Frames {
  import opened Wrappers
  import opened Seqs

  /** A DataFrame cell: missing (NaN), text, or a number. */
  datatype Cell = NaN | Text(s: string) | Num(r: real)

  type Row = map<string, Cell>

  datatype Frame = Frame(columns: seq<string>, rows: seq<Row>)

  /** Distinct column names, and every row has exactly those columns. */
  ghost predicate WellFormed(f: Frame) {
    NoDuplicates(f.columns) && forall i :: 0 <= i < |f.rows| ==> RowFits(f.rows[i], f.columns)
  }

  ghost predicate RowFits(r: Row, columns: seq<string>) {
    forall c :: c in r <==> c in columns
  }

  /**
   * str(cell) for a cell that is present and truthy; None for NaN, the empty
   * string and zero, which `pd.isna(x) or not x` turns away. `repr` is
   * Python's str() of a float.
   */
  function PresentText(c: Cell, repr: real -> string): (t: Option<string>)
    ensures t.None? <==> c.NaN? || c == Text("") || c == Num(0.0)
  {
    match c
    case NaN => None
    case Text(s) => if s == "" then None else Some(s)
    case Num(r) => if r == 0.0 then None else Some(repr(r))
  }

  /** DataFrame.empty: no rows or no columns. */
  predicate IsEmpty(f: Frame) {
    |f.rows| == 0 || |f.columns| == 0
  }

  /** df[c] */
  function Column(f: Frame, c: string): (cells: seq<Cell>)
    requires WellFormed(f) && c in f.columns
    ensures |cells| == |f.rows| && forall i :: 0 <= i < |f.rows| ==> cells[i] == f.rows[i][c]
  {
    seq(|f.rows|, i requires 0 <= i < |f.rows| => f.rows[i][c])
  }

  /** df.head(n) */
  function Head(f: Frame, n: nat): (g: Frame)
    requires WellFormed(f)
    ensures WellFormed(g) && g.columns == f.columns
    ensures g.rows == if |f.rows| <= n then f.rows else f.rows[..n]
  {
    Frame(f.columns, if |f.rows| <= n then f.rows else f.rows[..n])
  }

  /** Keeps rows, in order; the columns stay as they were. */
  function WithRows(f: Frame, rows: seq<Row>): (g: Frame)
    requires WellFormed(f)
    requires forall i :: 0 <= i < |rows| ==> rows[i] in f.rows
    ensures WellFormed(g) && g.columns == f.columns && g.rows == rows
  {
    Frame(f.columns, rows)
  }

  // ------------------------------------------------------------------
  // Dropping and assigning columns
  // ------------------------------------------------------------------

  /** The columns not named in `names`, in their order. */
  function ColumnsWithout(columns: seq<string>, names: seq<string>): (r: seq<string>)
    ensures forall c :: c in r <==> c in columns && c !in names
    ensures IsSubseq(r, columns)
  {
    var r := Filter(columns, c => c !in names);
    forall c ensures c in r <==> c in columns && c !in names {
      FilterMembers(columns, c => c !in names, c);
    }
    FilterSubseq(columns, c => c !in names);
    r
  }

  /** df.drop(columns=[c]) for every c of `names` that is present. */
  function DropColumns(f: Frame, names: seq<string>): (g: Frame)
    requires WellFormed(f)
    ensures WellFormed(g)
    ensures g.columns == ColumnsWithout(f.columns, names)
    ensures |g.rows| == |f.rows|
    ensures forall i :: 0 <= i < |f.rows| ==> g.rows[i] == f.rows[i] - set c | c in names
  {
    var cols := ColumnsWithout(f.columns, names);
    var g := Frame(cols, seq(|f.rows|, i requires 0 <= i < |f.rows| => f.rows[i] - set c | c in names));
    ColumnsWithoutDistinct(f.columns, names);
    g
  }

  lemma ColumnsWithoutDistinct(columns: seq<string>, names: seq<string>)
    requires NoDuplicates(columns)
    ensures NoDuplicates(ColumnsWithout(columns, names))
  {
    var cols := ColumnsWithout(columns, names);
    DistinctKeysSubseq(cols, columns, Identity);
    forall i, j | 0 <= i < j < |cols| ensures cols[i] != cols[j] {
      assert Identity(cols[i]) != Identity(cols[j]);
    }
  }

  /**
   * The drop loops of the formatting helpers: for each name in turn, the
   * column is dropped if the frame still has it.
   */
  method DropEach(f: Frame, names: seq<string>) returns (g: Frame)
    requires WellFormed(f)
    ensures g == DropColumns(f, names)
  {
    g := f;
    DropNothing(f);
    assert names[..0] == [];
    var i := 0;
    while i < |names|
      invariant 0 <= i <= |names|
      invariant g == DropColumns(f, names[..i])
    {
      DropStep(f, names, i);
      if names[i] in g.columns {
        g := DropColumns(g, [names[i]]);
      }
      i := i + 1;
    }
    assert names[..i] == names;
  }

  lemma DropNothing(f: Frame)
    requires WellFormed(f)
    ensures DropColumns(f, []) == f
  {
    FilterKeepsAll(f.columns, c => c !in []);
    assert DropColumns(f, []).rows == f.rows by {
      forall i | 0 <= i < |f.rows| ensures DropColumns(f, []).rows[i] == f.rows[i] {
        assert (set c: string | c in []) == {};
      }
    }
  }

  /** One more name: dropping that column if present is dropping all the names so far. */
  lemma DropStep(f: Frame, names: seq<string>, i: nat)
    requires WellFormed(f) && i < |names|
    ensures var g, d := DropColumns(f, names[..i]), names[i];
      (if d in g.columns then DropColumns(g, [d]) else g) == DropColumns(f, names[..i + 1])
  {
    var a, d := names[..i], names[i];
    assert names[..i + 1] == a + [d];
    if d in DropColumns(f, a).columns {
      DropTwiceColumns(f.columns, a, d);
      DropTwiceRows(f, a, d);
    } else {
      DropAbsent(f, a, d);
    }
  }

  lemma DropTwiceColumns(columns: seq<string>, a: seq<string>, d: string)
    ensures ColumnsWithout(ColumnsWithout(columns, a), [d]) == ColumnsWithout(columns, a + [d])
  {
    FilterTwice(columns, c => c !in a, c => c !in [d], c => c !in a + [d]);
  }

  /** Naming a column the frame no longer has drops nothing more. */
  lemma DropAbsent(f: Frame, a: seq<string>, d: string)
    requires WellFormed(f) && d !in DropColumns(f, a).columns
    ensures DropColumns(f, a + [d]) == DropColumns(f, a)
  {
    DropTwiceColumns(f.columns, a, d);
    FilterKeepsAll(DropColumns(f, a).columns, c => c !in [d]);
    NotKept(f.columns, a, d);
    DropAbsentRows(f, a, d);
  }

  lemma DropAbsentRows(f: Frame, a: seq<string>, d: string)
    requires WellFormed(f) && (d in a || d !in f.columns)
    ensures DropColumns(f, a + [d]).rows == DropColumns(f, a).rows
  {
    var g, h := DropColumns(f, a), DropColumns(f, a + [d]);
    var sa, sd, sad := set c | c in a, set c | c in [d], set c | c in a + [d];
    assert sad == sa + sd;
    forall k | 0 <= k < |f.rows| ensures g.rows[k] == h.rows[k] {
      assert RowFits(f.rows[k], f.columns);
      MapMinusAbsent(f.rows[k], sa, sd, sad);
    }
  }

  lemma NotKept(columns: seq<string>, a: seq<string>, d: string)
    requires d !in ColumnsWithout(columns, a)
    ensures d in a || d !in columns
  {
  }

  lemma MapMinusAbsent<K, V>(m: map<K, V>, a: set<K>, b: set<K>, ab: set<K>)
    requires ab == a + b && forall x | x in b :: x in a || x !in m
    ensures m - a == m - ab
  {
  }

  lemma DropTwiceRows(f: Frame, a: seq<string>, d: string)
    requires WellFormed(f)
    ensures DropColumns(DropColumns(f, a), [d]).rows == DropColumns(f, a + [d]).rows
  {
    var g := DropColumns(f, a);
    var sa, sd, sad := set c | c in a, set c | c in [d], set c | c in a + [d];
    assert sad == sa + sd;
    forall k | 0 <= k < |f.rows| ensures DropColumns(g, [d]).rows[k] == DropColumns(f, a + [d]).rows[k] {
      MapMinusTwice(f.rows[k], sa, sd, sad);
    }
  }

  lemma MapMinusTwice<K, V>(m: map<K, V>, a: set<K>, b: set<K>, ab: set<K>)
    requires ab == a + b
    ensures m - a - b == m - ab
  {
  }

  /** The column list after df[name] = ...: unchanged if present, else appended. */
  function ColumnsWith(columns: seq<string>, name: string): (r: seq<string>)
    ensures forall c :: c in r <==> c in columns || c == name
  {
    if name in columns then columns else columns + [name]
  }

  /** df[name] = values, one value per row. */
  function SetColumn(f: Frame, name: string, values: seq<Cell>): (g: Frame)
    requires WellFormed(f) && |values| == |f.rows|
    ensures WellFormed(g)
    ensures g.columns == ColumnsWith(f.columns, name)
    ensures |g.rows| == |f.rows|
    ensures forall i :: 0 <= i < |f.rows| ==> g.rows[i] == f.rows[i][name := values[i]]
  {
    var g := Frame(ColumnsWith(f.columns, name),
                   seq(|f.rows|, i requires 0 <= i < |f.rows| => f.rows[i][name := values[i]]));
    assert NoDuplicates(g.columns) by {
      if name !in f.columns {
        forall i, j | 0 <= i < j < |g.columns| ensures g.columns[i] != g.columns[j] {
          if j == |f.columns| { assert g.columns[i] in f.columns; }
        }
      }
    }
    g
  }

  /** df[name] = value, the same value in every row. */
  function SetColumnConst(f: Frame, name: string, value: Cell): (g: Frame)
    requires WellFormed(f)
    ensures WellFormed(g)
    ensures g.columns == ColumnsWith(f.columns, name)
    ensures |g.rows| == |f.rows|
    ensures forall i :: 0 <= i < |f.rows| ==> g.rows[i] == f.rows[i][name := value]
  {
    SetColumn(f, name, seq(|f.rows|, i => value))
  }

  // ------------------------------------------------------------------
  // Reordering columns
  // ------------------------------------------------------------------

  /** The desired names that are present, in desired order. */
  function PresentColumns(desired: seq<string>, columns: seq<string>): (r: seq<string>)
    ensures forall c :: c in r <==> c in desired && c in columns
  {
    if desired == [] then []
    else
      var d := desired[|desired| - 1];
      var r := PresentColumns(desired[..|desired| - 1], columns) + (if d in columns then [d] else []);
      assert desired == desired[..|desired| - 1] + [d];
      r
  }

  /** The columns that are not desired, in their existing order. */
  function RemainingColumns(columns: seq<string>, desired: seq<string>): (r: seq<string>)
    ensures forall c :: c in r <==> c in columns && c !in desired
  {
    if columns == [] then []
    else
      var c := columns[|columns| - 1];
      var r := RemainingColumns(columns[..|columns| - 1], desired) + (if c !in desired then [c] else []);
      assert columns == columns[..|columns| - 1] + [c];
      r
  }

  /** The order every reordering helper of the pipeline produces. */
  function OrderedColumns(desired: seq<string>, columns: seq<string>): seq<string> {
    PresentColumns(desired, columns) + RemainingColumns(columns, desired)
  }

  /** Reordering neither adds nor loses a column. */
  lemma OrderedColumnsMembers(desired: seq<string>, columns: seq<string>)
    ensures forall c :: c in OrderedColumns(desired, columns) <==> c in columns
  {
  }

  /**
   * The two loops shared by the column reordering helpers: first every
   * desired column that exists, then every existing column not yet taken.
   */
  method OrderColumns(desired: seq<string>, columns: seq<string>) returns (ordered: seq<string>)
    requires NoDuplicates(columns)
    ensures ordered == OrderedColumns(desired, columns)
  {
    ordered := [];
    var i := 0;
    while i < |desired|
      invariant 0 <= i <= |desired|
      invariant ordered == PresentColumns(desired[..i], columns)
    {
      assert desired[..i + 1][..i] == desired[..i];
      if desired[i] in columns {
        ordered := ordered + [desired[i]];
      }
      i := i + 1;
    }
    assert desired[..i] == desired;
    var present := ordered;
    var j := 0;
    while j < |columns|
      invariant 0 <= j <= |columns|
      invariant ordered == present + RemainingColumns(columns[..j], desired)
    {
      assert columns[..j + 1][..j] == columns[..j];
      assert columns[j] !in columns[..j] by {
        forall k | 0 <= k < j ensures columns[k] != columns[j] { }
      }
      assert columns[j] in ordered <==> columns[j] in desired;
      if columns[j] !in ordered {
        ordered := ordered + [columns[j]];
      }
      j := j + 1;
    }
    assert columns[..j] == columns;
  }

  /** The first desired column, when it exists, leads the reordered list. */
  lemma {:induction false} PresentColumnsHead(desired: seq<string>, columns: seq<string>)
    requires desired != [] && desired[0] in columns
    ensures PresentColumns(desired, columns) != [] && PresentColumns(desired, columns)[0] == desired[0]
  {
    var d' := desired[..|desired| - 1];
    if d' != [] {
      assert d'[0] == desired[0];
      PresentColumnsHead(d', columns);
    }
  }

  lemma {:induction false} PresentColumnsDistinct(desired: seq<string>, columns: seq<string>)
    requires NoDuplicates(desired)
    ensures NoDuplicates(PresentColumns(desired, columns))
  {
    if desired != [] {
      var d := desired[|desired| - 1];
      var d' := desired[..|desired| - 1];
      assert NoDuplicates(d');
      PresentColumnsDistinct(d', columns);
      assert d !in d' by {
        forall k | 0 <= k < |d'| ensures d'[k] != d { assert desired[k] == d'[k]; }
      }
    }
  }

  lemma {:induction false} RemainingColumnsDistinct(columns: seq<string>, desired: seq<string>)
    requires NoDuplicates(columns)
    ensures NoDuplicates(RemainingColumns(columns, desired))
  {
    if columns != [] {
      var c := columns[|columns| - 1];
      var c' := columns[..|columns| - 1];
      assert NoDuplicates(c');
      RemainingColumnsDistinct(c', desired);
      assert c !in c' by {
        forall k | 0 <= k < |c'| ensures c'[k] != c { assert columns[k] == c'[k]; }
      }
    }
  }

  lemma DistinctMultiset(a: seq<string>, b: seq<string>)
    requires NoDuplicates(a) && NoDuplicates(b)
    requires forall c :: c in a <==> c in b
    ensures multiset(a) == multiset(b)
  {
    DistinctCount(a);
    DistinctCount(b);
  }

  lemma {:induction false} DistinctCount(a: seq<string>)
    requires NoDuplicates(a)
    ensures forall c :: multiset(a)[c] == if c in a then 1 else 0
  {
    if a != [] {
      var a' := a[..|a| - 1];
      assert a == a' + [a[|a| - 1]];
      assert NoDuplicates(a');
      DistinctCount(a');
      assert a[|a| - 1] !in a' by {
        forall k | 0 <= k < |a'| ensures a'[k] != a[|a| - 1] { assert a[k] == a'[k]; }
      }
    }
  }

  /**
   * The reordered list is a permutation of the columns, without repeats;
   * the desired columns that exist come first and every other column after
   * them.
   */
  lemma OrderedColumnsPermutation(desired: seq<string>, columns: seq<string>)
    requires NoDuplicates(desired) && NoDuplicates(columns)
    ensures NoDuplicates(OrderedColumns(desired, columns))
    ensures multiset(OrderedColumns(desired, columns)) == multiset(columns)
    ensures forall k :: 0 <= k < |OrderedColumns(desired, columns)| ==>
      (OrderedColumns(desired, columns)[k] in desired <==> k < |PresentColumns(desired, columns)|)
  {
    var p, r := PresentColumns(desired, columns), RemainingColumns(columns, desired);
    var o := p + r;
    PresentColumnsDistinct(desired, columns);
    RemainingColumnsDistinct(columns, desired);
    forall i, j | 0 <= i < j < |o| ensures o[i] != o[j] {
      if i < |p| && j >= |p| {
        assert o[i] in p && o[j] == r[j - |p|];
      } else if j < |p| {
        assert o[i] == p[i] && o[j] == p[j];
      } else {
        assert o[i] == r[i - |p|] && o[j] == r[j - |p|];
      }
    }
    forall k | 0 <= k < |o| ensures o[k] in desired <==> k < |p| {
      if k < |p| { assert o[k] in p; } else { assert o[k] == r[k - |p|] && o[k] in r; }
    }
    DistinctMultiset(o, columns);
  }

  /** df[OrderedColumns(desired, df.columns)] */
  function Reordered(f: Frame, desired: seq<string>): (g: Frame)
    requires WellFormed(f) && NoDuplicates(desired)
    ensures WellFormed(g) && g.rows == f.rows
    ensures g.columns == OrderedColumns(desired, f.columns)
  {
    var g := Frame(OrderedColumns(desired, f.columns), f.rows);
    OrderedColumnsPermutation(desired, f.columns);
    forall c ensures c in g.columns <==> c in f.columns {
      assert c in g.columns <==> c in multiset(g.columns);
    }
    g
  }
}
