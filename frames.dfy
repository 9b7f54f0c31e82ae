/**
 * The part of a pandas DataFrame the two scripts rely on: a table of labelled columns and
 * rows of cells, the whole-table operations that return a new frame (`dropna`, `rename`,
 * `drop`, `applymap`, `replace`), column selection `df[name]`, and column assignment
 * `df[name] = values`, which changes the frame in place.
 */
module Frames {
  import opened Wrappers
  import opened PyText

  /** A cell: text, an integer, pandas' NaN marker for a missing value, or Python's `None`. */
  datatype Cell = Str(s: string) | Int(i: int) | Missing | Null

  /** What `pd.isna` holds for. */
  predicate IsNA(c: Cell) { c.Missing? || c.Null? }

  type Row = seq<Cell>

  /** A frame's content: the column names in order, and the rows in order. */
  datatype Table = Table(columns: seq<string>, rows: seq<Row>)

  /** Every row has one cell per column. */
  predicate Rectangular(t: Table) {
    forall i :: 0 <= i < |t.rows| ==> |t.rows[i]| == |t.columns|
  }

  predicate AllNA(row: Row) { forall j :: 0 <= j < |row| ==> IsNA(row[j]) }

  // ---------------------------------------------------------------- dropna

  /** The rows that hold at least one value that is not NA, in their original order. */
  function NonEmptyRows(rows: seq<Row>): (r: seq<Row>)
    ensures |r| <= |rows|
    ensures forall i :: 0 <= i < |r| ==> r[i] in rows && !AllNA(r[i])
    ensures forall row :: row in rows && !AllNA(row) ==> row in r
  {
    if rows == [] then []
    else (if AllNA(rows[0]) then [] else [rows[0]]) + NonEmptyRows(rows[1..])
  }

  /** `df.dropna(axis=0, how='all')` */
  function DropEmptyRows(t: Table): (r: Table)
    ensures r.columns == t.columns
    ensures Rectangular(t) ==> Rectangular(r)
    ensures forall i :: 0 <= i < |r.rows| ==> !AllNA(r.rows[i])
  {
    Table(t.columns, NonEmptyRows(t.rows))
  }

  /** Dropping empty rows works row by row: the kept rows of two blocks are kept in block order. */
  lemma {:induction false} NonEmptyRowsAppend(a: seq<Row>, b: seq<Row>)
    ensures NonEmptyRows(a + b) == NonEmptyRows(a) + NonEmptyRows(b)
    decreases |a|
  {
    if a == [] {
      assert a + b == b;
    } else {
      assert (a + b)[0] == a[0] && (a + b)[1..] == a[1..] + b;
      NonEmptyRowsAppend(a[1..], b);
    }
  }

  /** A row with a value is kept, a row of NA values is dropped. */
  lemma NonEmptyRowsSingle(row: Row)
    ensures NonEmptyRows([row]) == if AllNA(row) then [] else [row]
  {
    assert [row][1..] == [];
  }

  /** Dropping empty rows twice drops nothing more. */
  lemma {:induction false} NonEmptyRowsIdempotent(rows: seq<Row>)
    ensures NonEmptyRows(NonEmptyRows(rows)) == NonEmptyRows(rows)
    decreases |rows|
  {
    if rows != [] {
      var head := if AllNA(rows[0]) then [] else [rows[0]];
      NonEmptyRowsAppend(head, NonEmptyRows(rows[1..]));
      if head != [] { NonEmptyRowsSingle(rows[0]); }
      NonEmptyRowsIdempotent(rows[1..]);
    }
  }

  // ---------------------------------------------------------------- rename / drop

  /** The name a column gets from `rename(columns=m)`: mapped when it is a key, unchanged otherwise. */
  function Renamed(name: string, m: map<string, string>): string {
    if name in m then m[name] else name
  }

  /** The names after `rename(columns=m)`, in the same order. */
  function RenameColumns(cols: seq<string>, m: map<string, string>): (r: seq<string>)
    ensures |r| == |cols|
    ensures forall j :: 0 <= j < |cols| ==> r[j] == Renamed(cols[j], m)
  {
    if cols == [] then [] else [Renamed(cols[0], m)] + RenameColumns(cols[1..], m)
  }

  /** A name that `rename(columns=m)` brings in and that was not there before is the new name of a mapped header. */
  lemma RenamedNewNames(cols: seq<string>, m: map<string, string>, x: string)
    ensures (x in RenameColumns(cols, m) && x !in cols) <==>
      x !in cols && exists h :: h in cols && h in m && m[h] == x
  {
    var renamed := RenameColumns(cols, m);
    if x !in cols && exists h :: h in cols && h in m && m[h] == x {
      var h :| h in cols && h in m && m[h] == x;
      var j :| 0 <= j < |cols| && cols[j] == h;
      assert renamed[j] == x;
    }
    if x in renamed && x !in cols {
      var j :| 0 <= j < |renamed| && renamed[j] == x;
      assert cols[j] in cols;
    }
  }

  /** `df.rename(columns=m)` */
  function Rename(t: Table, m: map<string, string>): (r: Table)
    ensures |r.columns| == |t.columns| && r.rows == t.rows
    ensures Rectangular(t) ==> Rectangular(r)
  {
    Table(RenameColumns(t.columns, m), t.rows)
  }

  /** How many flags of `keep` are set. */
  function Count(keep: seq<bool>): (n: nat)
    ensures n <= |keep|
  {
    if keep == [] then 0 else (if keep[0] then 1 else 0) + Count(keep[1..])
  }

  /** The elements of `s` whose flag in `keep` is set, in order. */
  function Filter<T(!new)>(s: seq<T>, keep: seq<bool>): (r: seq<T>)
    requires |keep| == |s|
    ensures |r| == Count(keep)
    ensures forall x :: x in r <==> exists j :: 0 <= j < |s| && keep[j] && s[j] == x
  {
    if s == [] then []
    else
      var rest := Filter(s[1..], keep[1..]);
      var r := (if keep[0] then [s[0]] else []) + rest;
      FilterMembers(s, keep, rest, r);
      r
  }

  /** Position in the unfiltered sequence of the `p`-th kept element. */
  function KeptIndex(keep: seq<bool>, p: nat): (j: nat)
    requires p < Count(keep)
    ensures j < |keep| && keep[j]
  {
    if keep[0] then (if p == 0 then 0 else 1 + KeptIndex(keep[1..], p - 1))
    else 1 + KeptIndex(keep[1..], p)
  }

  /** The `p`-th element of a filtered sequence is the element at the `p`-th kept position. */
  lemma {:induction false} FilterAt<T(!new)>(s: seq<T>, keep: seq<bool>, p: nat)
    requires |keep| == |s| && p < Count(keep)
    ensures Filter(s, keep)[p] == s[KeptIndex(keep, p)]
    decreases |s|
  {
    var rest := Filter(s[1..], keep[1..]);
    if keep[0] {
      assert Filter(s, keep) == [s[0]] + rest;
      if p > 0 { FilterAt(s[1..], keep[1..], p - 1); }
    } else {
      assert Filter(s, keep) == rest;
      FilterAt(s[1..], keep[1..], p);
    }
  }

  /** Filtering keeps the original order. */
  lemma {:induction false} KeptIndexOrder(keep: seq<bool>, p: nat, q: nat)
    requires p < q < Count(keep)
    ensures KeptIndex(keep, p) < KeptIndex(keep, q)
    decreases |keep|
  {
    if keep[0] {
      if p > 0 { KeptIndexOrder(keep[1..], p - 1, q - 1); }
    } else {
      KeptIndexOrder(keep[1..], p, q);
    }
  }

  lemma FilterMembers<T(!new)>(s: seq<T>, keep: seq<bool>, rest: seq<T>, r: seq<T>)
    requires |keep| == |s| && s != []
    requires forall x :: x in rest <==> exists j :: 0 <= j < |s[1..]| && keep[1..][j] && s[1..][j] == x
    requires r == (if keep[0] then [s[0]] else []) + rest
    ensures forall x :: x in r <==> exists j :: 0 <= j < |s| && keep[j] && s[j] == x
  {
    forall j | 0 <= j < |s| && keep[j] ensures s[j] in r {
      if j > 0 { assert keep[1..][j - 1] && s[1..][j - 1] == s[j]; }
    }
    forall x | x in rest ensures exists j :: 0 <= j < |s| && keep[j] && s[j] == x {
      var j :| 0 <= j < |s[1..]| && keep[1..][j] && s[1..][j] == x;
      assert keep[j + 1] && s[j + 1] == x;
    }
  }

  /** Which columns `drop(columns=names)` keeps. */
  function KeepMask(cols: seq<string>, names: set<string>): (keep: seq<bool>)
    ensures |keep| == |cols|
    ensures forall j :: 0 <= j < |cols| ==> keep[j] == (cols[j] !in names)
  {
    seq(|cols|, j requires 0 <= j < |cols| => cols[j] !in names)
  }

  /**
   * `df.drop(columns=names)`: every column whose name is in `names` goes, the others stay
   * in order with their cells. pandas raises `KeyError` for a name the frame lacks, so
   * callers pass names of the frame.
   */
  function DropColumns(t: Table, names: set<string>): (r: Table)
    requires Rectangular(t)
    requires forall x :: x in names ==> x in t.columns
    ensures Rectangular(r) && |r.rows| == |t.rows|
    ensures forall x :: x in r.columns <==> x in t.columns && x !in names
    ensures |r.columns| == Count(KeepMask(t.columns, names))
    ensures forall p :: 0 <= p < |r.columns| ==>
      var j := KeptIndex(KeepMask(t.columns, names), p);
      r.columns[p] == t.columns[j] && forall i :: 0 <= i < |t.rows| ==> r.rows[i][p] == t.rows[i][j]
  {
    var keep := KeepMask(t.columns, names);
    var r := Table(Filter(t.columns, keep),
                   seq(|t.rows|, i requires 0 <= i < |t.rows| => Filter(t.rows[i], keep)));
    forall p | 0 <= p < |r.columns|
      ensures r.columns[p] == t.columns[KeptIndex(keep, p)]
      ensures forall i :: 0 <= i < |t.rows| ==> r.rows[i][p] == t.rows[i][KeptIndex(keep, p)]
    {
      FilterAt(t.columns, keep, p);
      forall i | 0 <= i < |t.rows| ensures r.rows[i][p] == t.rows[i][KeptIndex(keep, p)] {
        FilterAt(t.rows[i], keep, p);
      }
    }
    r
  }

  // ---------------------------------------------------------------- applymap / replace

  /** `df.applymap(f)`: `f` applied to every cell. */
  function MapCells(t: Table, f: Cell -> Cell): (r: Table)
    ensures r.columns == t.columns && |r.rows| == |t.rows|
    ensures forall i :: 0 <= i < |t.rows| ==>
      |r.rows[i]| == |t.rows[i]| && forall j :: 0 <= j < |t.rows[i]| ==> r.rows[i][j] == f(t.rows[i][j])
    ensures Rectangular(t) ==> Rectangular(r)
  {
    Table(t.columns, seq(|t.rows|, i requires 0 <= i < |t.rows| =>
      seq(|t.rows[i]|, j requires 0 <= j < |t.rows[i]| => f(t.rows[i][j]))))
  }

  /** `x.strip() if isinstance(x, str) else x` */
  function StripCell(c: Cell): Cell {
    if c.Str? then Str(Strip(c.s)) else c
  }

  /** `df.applymap(lambda x: x.strip() if isinstance(x, str) else x)` */
  function StripAll(t: Table): (r: Table)
    ensures r.columns == t.columns && |r.rows| == |t.rows|
    ensures Rectangular(t) ==> Rectangular(r)
  {
    MapCells(t, StripCell)
  }

  /**
   * After stripping, every text cell is its old text with only leading and trailing whitespace
   * cut off, and starts and ends with no whitespace; other cells are as they were.
   */
  lemma StripAllCells(t: Table)
    ensures forall i, j :: 0 <= i < |t.rows| && 0 <= j < |t.rows[i]| ==>
      var c, d := t.rows[i][j], StripAll(t).rows[i][j];
      (c.Str? ==>
        d.Str? && IsStripped(d.s) &&
        exists a, b :: 0 <= a <= b <= |c.s| && d.s == c.s[a..b] && AllSpace(c.s[..a]) && AllSpace(c.s[b..])) &&
      (!c.Str? ==> d == c)
  {
    forall i, j | 0 <= i < |t.rows| && 0 <= j < |t.rows[i]| && t.rows[i][j].Str?
      ensures exists a, b :: (0 <= a <= b <= |t.rows[i][j].s| && StripAll(t).rows[i][j].s == t.rows[i][j].s[a..b]
        && AllSpace(t.rows[i][j].s[..a]) && AllSpace(t.rows[i][j].s[b..]))
    {
      var s := t.rows[i][j].s;
      var a, b :| 0 <= a <= b <= |s| && Strip(s) == s[a..b] && AllSpace(s[..a]) && AllSpace(s[b..]);
    }
  }

  /** Stripping a stripped frame changes nothing. */
  lemma StripAllIdempotent(t: Table)
    ensures StripAll(StripAll(t)) == StripAll(t)
  {
    var once := StripAll(t);
    var twice := StripAll(once);
    forall i, j | 0 <= i < |t.rows| && 0 <= j < |t.rows[i]| ensures twice.rows[i][j] == once.rows[i][j] {
      if t.rows[i][j].Str? { StripIdempotent(t.rows[i][j].s); }
    }
    assert forall i :: 0 <= i < |t.rows| ==> twice.rows[i] == once.rows[i];
  }

  /** What `replace({np.nan: None, "NaT": None})` does to one cell. */
  function Nullify(c: Cell): Cell {
    if c.Missing? || c == Str("NaT") then Null else c
  }

  /** `df.replace({np.nan: None, "NaT": None})` */
  function ReplaceNulls(t: Table): (r: Table)
    ensures r.columns == t.columns && |r.rows| == |t.rows|
    ensures Rectangular(t) ==> Rectangular(r)
  {
    MapCells(t, Nullify)
  }

  /** After null replacement no cell is NaN or "NaT", and every other cell is unchanged. */
  lemma ReplaceNullsCells(t: Table)
    ensures forall i, j :: 0 <= i < |t.rows| && 0 <= j < |t.rows[i]| ==>
      var c, d := t.rows[i][j], ReplaceNulls(t).rows[i][j];
      && !d.Missing? && d != Str("NaT")
      && (c.Missing? || c == Str("NaT") ==> d == Null)
      && (!c.Missing? && c != Str("NaT") ==> d == c)
  {
  }

  /** `str(x)` of a cell: the text itself, the decimal integer, "nan" for NaN, "None" for `None`. */
  function Show(c: Cell): string {
    match c
    case Str(s) => s
    case Int(i) => IntToText(i)
    case Missing => "nan"
    case Null => "None"
  }

  // ---------------------------------------------------------------- df[name]

  datatype LookupError = KeyError(name: string) | DuplicateLabel(name: string)

  /** How many columns carry `name`. */
  function Occurrences(cols: seq<string>, name: string): (n: nat)
    ensures n == 0 <==> name !in cols
  {
    if cols == [] then 0 else (if cols[0] == name then 1 else 0) + Occurrences(cols[1..], name)
  }

  /** Position of the first column carrying `name`. */
  function IndexOf(cols: seq<string>, name: string): (j: nat)
    requires name in cols
    ensures j < |cols| && cols[j] == name
    ensures forall k :: 0 <= k < j ==> cols[k] != name
  {
    if cols[0] == name then 0 else 1 + IndexOf(cols[1..], name)
  }

  /** A name that occurs once has no other position. */
  lemma {:induction false} OnlyPosition(cols: seq<string>, name: string, j: nat)
    requires Occurrences(cols, name) == 1 && j < |cols| && cols[j] == name
    ensures forall k :: 0 <= k < |cols| && k != j ==> cols[k] != name
    decreases |cols|
  {
    if cols[0] == name {
      assert name !in cols[1..];
      forall k | 0 < k < |cols| ensures cols[k] != name { assert cols[k] == cols[1..][k - 1]; }
    } else {
      OnlyPosition(cols[1..], name, j - 1);
      forall k | 0 < k < |cols| && k != j ensures cols[k] != name { assert cols[k] == cols[1..][k - 1]; }
    }
  }

  /**
   * `df[name]`: the cells of the column with that name. A missing name raises `KeyError`;
   * a name carried by several columns is reported as `DuplicateLabel` (pandas would return a
   * frame of all of them, which none of the scripts' later steps can use as a column).
   */
  function Column(t: Table, name: string): (r: Result<seq<Cell>, LookupError>)
    requires Rectangular(t)
    ensures r == Failure(KeyError(name)) <==> name !in t.columns
    ensures r.Success? <==> Occurrences(t.columns, name) == 1
    ensures r.Success? ==> |r.value| == |t.rows|
    ensures r.Success? ==>
      exists j :: 0 <= j < |t.columns| && t.columns[j] == name &&
        forall i :: 0 <= i < |t.rows| ==> r.value[i] == t.rows[i][j]
  {
    if name !in t.columns then Failure(KeyError(name))
    else if Occurrences(t.columns, name) > 1 then Failure(DuplicateLabel(name))
    else
      var j := IndexOf(t.columns, name);
      Success(seq(|t.rows|, i requires 0 <= i < |t.rows| => t.rows[i][j]))
  }

  // ---------------------------------------------------------------- df[name] = values

  /**
   * `df[name] = values`: every column carrying `name` gets `values`; when there is none,
   * a column `name` holding `values` is added after the last one. Nothing else changes.
   */
  function Assign(t: Table, name: string, values: seq<Cell>): (r: Table)
    requires Rectangular(t) && |values| == |t.rows|
    ensures Rectangular(r) && |r.rows| == |t.rows|
    ensures r.columns == if name in t.columns then t.columns else t.columns + [name]
    ensures forall i, j :: 0 <= i < |t.rows| && 0 <= j < |r.columns| ==>
      r.rows[i][j] == if r.columns[j] == name then values[i] else t.rows[i][j]
  {
    if name in t.columns then
      Table(t.columns, seq(|t.rows|, i requires 0 <= i < |t.rows| =>
        seq(|t.columns|, j requires 0 <= j < |t.columns| =>
          if t.columns[j] == name then values[i] else t.rows[i][j])))
    else
      Table(t.columns + [name], seq(|t.rows|, i requires 0 <= i < |t.rows| => t.rows[i] + [values[i]]))
  }

  /** A column in which every row holds `c` (a scalar assigned to a column is broadcast). */
  function Broadcast(n: nat, c: Cell): (r: seq<Cell>)
    ensures |r| == n && forall i :: 0 <= i < n ==> r[i] == c
  {
    seq(n, _ => c)
  }

  /** Assigning a scalar to a new name appends one column holding that scalar in every row. */
  lemma AssignNewScalar(t: Table, name: string, c: Cell)
    requires Rectangular(t) && name !in t.columns
    ensures var r := Assign(t, name, Broadcast(|t.rows|, c));
      && r.columns == t.columns + [name]
      && |r.rows| == |t.rows|
      && forall i :: 0 <= i < |t.rows| ==> r.rows[i] == t.rows[i] + [c]
  {
  }

  /** Assigning a column keeps the existing names in place and every cell of the other columns. */
  lemma AssignKeepsOthers(t: Table, name: string, values: seq<Cell>)
    requires Rectangular(t) && |values| == |t.rows|
    ensures var r := Assign(t, name, values);
      && |r.columns| >= |t.columns| && r.columns[..|t.columns|] == t.columns
      && forall i, j :: 0 <= i < |t.rows| && 0 <= j < |t.columns| && t.columns[j] != name ==>
           r.rows[i][j] == t.rows[i][j]
  {
  }

  /** `r` keeps the columns of `t` in place and, outside `names`, every one of their cells. */
  predicate KeepsOthers(t: Table, r: Table, names: seq<string>) {
    && Rectangular(t) && Rectangular(r) && |r.rows| == |t.rows|
    && |r.columns| >= |t.columns| && r.columns[..|t.columns|] == t.columns
    && forall i, j :: 0 <= i < |t.rows| && 0 <= j < |t.columns| && t.columns[j] !in names ==>
         r.rows[i][j] == t.rows[i][j]
  }

  /** Assigning a column named in `names` keeps every other column of the frame. */
  lemma AssignKeepsNamed(t: Table, name: string, values: seq<Cell>, names: seq<string>)
    requires Rectangular(t) && |values| == |t.rows| && name in names
    ensures KeepsOthers(t, Assign(t, name, values), names)
  {
    AssignKeepsOthers(t, name, values);
  }

  lemma KeepsOthersTrans(a: Table, b: Table, c: Table, names: seq<string>)
    requires KeepsOthers(a, b, names) && KeepsOthers(b, c, names)
    ensures KeepsOthers(a, c, names)
  {
    forall j | 0 <= j < |a.columns|
      ensures b.columns[j] == a.columns[j] && c.columns[j] == a.columns[j]
    {
      assert b.columns[..|a.columns|][j] == b.columns[j];
      assert c.columns[..|b.columns|][j] == c.columns[j];
    }
    assert c.columns[..|a.columns|] == a.columns;
  }

  /** The assigned column reads back as the assigned values. */
  lemma AssignThenColumn(t: Table, name: string, values: seq<Cell>)
    requires Rectangular(t) && |values| == |t.rows| && Occurrences(t.columns, name) <= 1
    ensures Column(Assign(t, name, values), name) == Success(values)
  {
    var r := Assign(t, name, values);
    if name in t.columns {
      assert Occurrences(r.columns, name) == 1;
    } else {
      OccurrencesAppend(t.columns, [name], name);
      assert Occurrences([name], name) == 1 by { assert [name][1..] == []; }
    }
    var j := IndexOf(r.columns, name);
    assert Column(r, name).value == values;
  }

  /** Assigning a column adds the name once when it is new and leaves every other count alone. */
  lemma AssignOccurrences(t: Table, name: string, values: seq<Cell>, x: string)
    requires Rectangular(t) && |values| == |t.rows|
    ensures Occurrences(Assign(t, name, values).columns, x) ==
      if x == name && name !in t.columns then 1 else Occurrences(t.columns, x)
  {
    if name !in t.columns {
      OccurrencesAppend(t.columns, [name], x);
      assert Occurrences([name], x) == if x == name then 1 else 0 by { assert [name][1..] == []; }
    }
  }

  /** Assigning one column leaves every other column reading as before. */
  lemma AssignOtherColumn(t: Table, name: string, values: seq<Cell>, other: string)
    requires Rectangular(t) && |values| == |t.rows| && other != name
    ensures Column(Assign(t, name, values), other) == Column(t, other)
  {
    var r := Assign(t, name, values);
    AssignOccurrences(t, name, values, other);
    assert r.columns[..|t.columns|] == t.columns;
    if Occurrences(t.columns, other) == 1 {
      var j := IndexOf(t.columns, other);
      var k := IndexOf(r.columns, other);
      assert k == j;
      assert Column(r, other).value == Column(t, other).value;
    }
  }

  lemma {:induction false} OccurrencesAppend(a: seq<string>, b: seq<string>, name: string)
    ensures Occurrences(a + b, name) == Occurrences(a, name) + Occurrences(b, name)
    decreases |a|
  {
    if a == [] {
      assert a + b == b;
    } else {
      assert (a + b)[0] == a[0] && (a + b)[1..] == a[1..] + b;
      OccurrencesAppend(a[1..], b, name);
    }
  }

  // ---------------------------------------------------------------- the frame object

  /** A DataFrame object, which `df[name] = values` changes in place. */
  class DataFrame {
    var columns: seq<string>
    var rows: seq<Row>

    ghost predicate Valid()
      reads this
    {
      Rectangular(Table(columns, rows))
    }

    /** The frame's current content. */
    function View(): Table
      reads this
    {
      Table(columns, rows)
    }

    constructor (t: Table)
      requires Rectangular(t)
      ensures Valid() && View() == t
    {
      columns, rows := t.columns, t.rows;
    }

    /** `df[name] = values` */
    method Set(name: string, values: seq<Cell>)
      requires Valid() && |values| == |rows|
      modifies this
      ensures Valid() && View() == Assign(old(View()), name, values)
    {
      var r := Assign(View(), name, values);
      columns, rows := r.columns, r.rows;
    }

    /** `df[name] = value` for a scalar value. */
    method SetAll(name: string, value: Cell)
      requires Valid()
      modifies this
      ensures Valid() && View() == Assign(old(View()), name, Broadcast(|old(rows)|, value))
    {
      Set(name, Broadcast(|rows|, value));
    }
  }
}
