/**
 * The orders report script (scripts/orders_report.py): converts one orders spreadsheet,
 * already loaded as a table, into the list of row records that the script writes as JSON.
 * Unlike the shipment export it keeps unmapped headers, derives three columns, and never
 * looks at the file name's period.
 */
module OrdersReport {
  import opened Wrappers
  import opened PyText
  import opened Strptime
  import opened Frames

  /** `headers_eng`: source header to canonical field name. */
  const HeadersEng: map<string, string> := map[
    "Дата отхода с/з" := "date",
    "Экспедитор" := "expeditor",
    "Инд." := "individual",
    "№ конт." := "container",
    "Тип" := "container_type_and_size",
    "Груз" := "goods_name",
    "Порт назначения" := "tracking_seaport",
    "Судно" := "ship_name",
    "Линия" := "line"
  ]

  /** `DATE_FORMATS`: "%Y-%m-%d %H:%M:%S", "%d.%m.%Y", "%d.%m.%Y %H:%M:%S", "%d.%m.%Y %H:%M", tried in this order. */
  const DateFormats: seq<Format> := [YmdDashHms, DmyDot, DmyDotHms, DmyDotHm]

  // ---------------------------------------------------------------- convert_format_date

  /**
   * `convert_format_date`: the ISO date of the first format in `DateFormats` that reads the
   * whole of `date` as a valid date-time, any time of day dropped; `None` when none does.
   */
  function ConvertFormatDate(date: string): (r: Option<string>)
    ensures r.None? <==> forall i :: 0 <= i < |DateFormats| ==> Parse(date, DateFormats[i]).None?
    ensures r.Some? ==>
      exists i :: (0 <= i < |DateFormats| && Parse(date, DateFormats[i]).Some?
        && r.value == Iso(Parse(date, DateFormats[i]).value)
        && forall j :: 0 <= j < i ==> Parse(date, DateFormats[j]).None?)
  {
    match FirstParse(date, DateFormats)
    case None => None
    case Some(dt) => Some(Iso(dt))
  }

  /** A valid date-time written as `YYYY-MM-DD HH:MM:SS` converts to its date by the first format. */
  lemma ConvertWithTime(dt: DateTime)
    requires ValidDateTime(dt)
    ensures ConvertFormatDate(Written(dt, YmdDashHms)) == Some(Iso(dt))
  {
    ValidInRange(dt, YmdDashHms);
    DateTimeRoundTrip(dt, YmdDashHms);
    FirstFormat(Written(dt, YmdDashHms), dt);
  }

  /**
   * A valid date written as `YYYY-MM-DD`, with no time of day, converts to `None`: no format
   * of this script starts with a year and stops after the day.
   */
  lemma ConvertIsoRefused(dt: DateTime)
    requires ValidDateTime(dt)
    ensures ConvertFormatDate(Iso(dt)) == None
  {
    ValidInRange(dt, YmdDash);
    DateRefusedByTime(dt, YmdDash, Hms);
    YearFirstRefusedByDayFirst(dt, YmdDash);
    NoFormat(Iso(dt));
  }

  /** A valid date written as `DD.MM.YYYY` converts to its ISO date by the second format. */
  lemma ConvertDayFirst(dt: DateTime)
    requires ValidDateTime(dt)
    ensures ConvertFormatDate(Written(dt, DmyDot)) == Some(Iso(dt))
  {
    ValidInRange(dt, DmyDot);
    DayFirstRefusedByYearFirst(dt, DmyDot);
    DateRoundTrip(dt, DmyDot);
    IsoOfDate(DateTime(dt.year, dt.month, dt.day, 0, 0, 0), dt);
    SecondFormat(Written(dt, DmyDot));
  }

  /** A valid date-time written as `DD.MM.YYYY HH:MM:SS` converts to its date by the third format. */
  lemma ConvertDayFirstWithTime(dt: DateTime)
    requires ValidDateTime(dt)
    ensures ConvertFormatDate(Written(dt, DmyDotHms)) == Some(Iso(dt))
  {
    ValidInRange(dt, DmyDotHms);
    DayFirstRefusedByYearFirst(dt, DmyDotHms);
    DateRefusesTime(dt, DmyDot, Hms);
    DateTimeRoundTrip(dt, DmyDotHms);
    ThirdFormat(Written(dt, DmyDotHms));
  }

  /**
   * A valid date-time written as `DD.MM.YYYY HH:MM` is refused by "%d.%m.%Y" (text left over)
   * and by "%d.%m.%Y %H:%M:%S" (no seconds), and converts to its date by the last format.
   */
  lemma ConvertDayFirstMinutes(dt: DateTime)
    requires ValidDateTime(dt)
    ensures ConvertFormatDate(Written(dt, DmyDotHm)) == Some(Iso(dt))
  {
    ValidInRange(dt, DmyDotHm);
    DayFirstRefusedByYearFirst(dt, DmyDotHm);
    DateRefusesTime(dt, DmyDot, Hm);
    MinutesRefusedBySeconds(dt);
    MinutesRoundTrip(dt);
    IsoOfDate(dt.(second := 0), dt);
    FourthFormat(Written(dt, DmyDotHm));
  }

  /** A day past the end of its month, written `DD.MM.YYYY`, is no date: every format refuses it. */
  lemma ConvertImpossibleDay(dt: DateTime)
    requires 1 <= dt.year <= 9999 && 1 <= dt.month <= 12 && DaysInMonth(dt.year, dt.month) < dt.day <= 31
    ensures ConvertFormatDate(Written(dt, DmyDot)) == None
  {
    WrittenDayFirst(dt);
    DayFirstRefusedByYearFirst(dt, DmyDot);
    InvalidDateRefused(dt);
    DateRefusedByTime(dt, DmyDot, Hms);
    DateRefusedByTime(dt, DmyDot, Hm);
    NoFormat(Written(dt, DmyDot));
  }

  /**
   * Text that starts with neither a digit nor a space (such as "nan" or "None") converts to
   * `None`. A space is left open because `%d` also reads a space and one digit 1-9.
   */
  lemma ConvertNeedsLeadingDigit(s: string)
    requires s == [] || (!IsDigit(s[0]) && s[0] != ' ')
    ensures ConvertFormatDate(s) == None
  {
    FirstTokenRefused(s, YmdDashHms);
    FirstTokenRefused(s, DmyDot);
    FirstTokenRefused(s, DmyDotHms);
    FirstTokenRefused(s, DmyDotHm);
    NoFormat(s);
  }

  /** Text made of digits alone (`str` of a non-negative integer) converts to `None`. */
  lemma ConvertAllDigits(s: string)
    requires AllDigits(s)
    ensures ConvertFormatDate(s) == None
  {
    AllDigitsRefused(s, YmdDashHms);
    AllDigitsRefused(s, DmyDot);
    AllDigitsRefused(s, DmyDotHms);
    AllDigitsRefused(s, DmyDotHm);
    NoFormat(s);
  }

  lemma FirstFormat(s: string, dt: DateTime)
    requires Parse(s, YmdDashHms) == Some(dt)
    ensures ConvertFormatDate(s) == Some(Iso(dt))
  {
  }

  lemma SecondFormat(s: string)
    requires Parse(s, YmdDashHms).None? && Parse(s, DmyDot).Some?
    ensures ConvertFormatDate(s) == Some(Iso(Parse(s, DmyDot).value))
  {
    assert DateFormats[1..][0] == DmyDot;
  }

  lemma ThirdFormat(s: string)
    requires Parse(s, YmdDashHms).None? && Parse(s, DmyDot).None? && Parse(s, DmyDotHms).Some?
    ensures ConvertFormatDate(s) == Some(Iso(Parse(s, DmyDotHms).value))
  {
    assert DateFormats[1..][1..][0] == DmyDotHms;
  }

  lemma FourthFormat(s: string)
    requires Parse(s, YmdDashHms).None? && Parse(s, DmyDot).None? && Parse(s, DmyDotHms).None?
    requires Parse(s, DmyDotHm).Some?
    ensures ConvertFormatDate(s) == Some(Iso(Parse(s, DmyDotHm).value))
  {
    assert DateFormats[1..][1..][1..][0] == DmyDotHm;
  }

  lemma NoFormat(s: string)
    requires Parse(s, YmdDashHms).None? && Parse(s, DmyDot).None?
    requires Parse(s, DmyDotHms).None? && Parse(s, DmyDotHm).None?
    ensures ConvertFormatDate(s) == None
  {
  }

  // ---------------------------------------------------------------- change_type_and_values

  /** `lambda x: self.convert_format_date(str(x))` on one cell. */
  function ConvertCell(c: Cell): (r: Cell)
    ensures r.Null? || (r.Str? && |r.s| == 10 && r.s[4] == '-' && r.s[7] == '-')
    ensures r.Str? <==> ConvertFormatDate(Show(c)).Some?
  {
    match ConvertFormatDate(Show(c))
    case None => Null
    case Some(d) => Str(d)
  }

  /** Only text cells can hold a date: integers, NaN and `None` all become `None`. */
  lemma ConvertCellNonText(c: Cell)
    requires !c.Str?
    ensures ConvertCell(c) == Null
  {
    match c
    case Int(i) =>
      if i >= 0 { ConvertAllDigits(Show(c)); } else { ConvertNeedsLeadingDigit(Show(c)); }
    case Missing => ConvertNeedsLeadingDigit("nan");
    case Null => ConvertNeedsLeadingDigit("None");
  }

  /**
   * `a + b` for two cells of object columns: NaN where either side is NA, concatenation of
   * two strings, the sum of two integers; any other pair raises `TypeError` (`None` here).
   */
  function AddCells(a: Cell, b: Cell): Option<Cell> {
    if IsNA(a) || IsNA(b) then Some(Missing)
    else if a.Str? && b.Str? then Some(Str(a.s + b.s))
    else if a.Int? && b.Int? then Some(Int(a.i + b.i))
    else None
  }

  /** A pair `+` cannot add: text and an integer, in either order. */
  predicate Mixed(a: Cell, b: Cell) {
    (a.Str? && b.Int?) || (a.Int? && b.Str?)
  }

  /**
   * `df['individual'] + df['container']`: element-wise addition. It raises `TypeError` exactly
   * when some row pairs text with an integer. Otherwise text is concatenated, integers are
   * summed, and a row with an NA side gives NaN.
   */
  function AddColumns(x: seq<Cell>, y: seq<Cell>): (r: Option<seq<Cell>>)
    requires |x| == |y|
    ensures r.None? <==> exists i :: 0 <= i < |x| && Mixed(x[i], y[i])
    ensures r.Some? ==> |r.value| == |x| && forall i :: 0 <= i < |x| ==>
      && (x[i].Str? && y[i].Str? ==> r.value[i] == Str(x[i].s + y[i].s))
      && (x[i].Int? && y[i].Int? ==> r.value[i] == Int(x[i].i + y[i].i))
      && (IsNA(x[i]) || IsNA(y[i]) ==> r.value[i] == Missing)
  {
    if forall i :: 0 <= i < |x| ==> AddCells(x[i], y[i]).Some? then
      Some(seq(|x|, i requires 0 <= i < |x| => AddCells(x[i], y[i]).value))
    else None
  }

  /** Two text cells are joined with no separator; a text cell and an integer cannot be added. */
  lemma AddCellsText(a: string, b: string, i: int)
    ensures AddCells(Str(a), Str(b)) == Some(Str(a + b))
    ensures AddCells(Str(a), Int(i)) == None && AddCells(Int(i), Str(a)) == None
  {
  }

  /**
   * `df['container_type_and_size'].str.split(expand=True)` assigned to two columns: each cell
   * must be text of exactly two whitespace-separated words, giving the first and the second.
   * Otherwise (and on a frame with no rows, where no column comes out) the assignment raises.
   */
  function SplitColumn(col: seq<Cell>): (r: Option<(seq<Cell>, seq<Cell>)>)
    ensures r.Some? <==> |col| > 0 && AllTwoWords(col)
    ensures r.Some? ==> |r.value.0| == |col| && |r.value.1| == |col|
    ensures r.Some? ==> forall i :: 0 <= i < |col| ==>
      r.value.0[i].Str? && r.value.1[i].Str? && TwoWords(col[i].s, r.value.0[i].s, r.value.1[i].s)
  {
    CellsOfTwoWords(col);
    if |col| > 0 && AllSplitInTwo(col) then
      var firsts := seq(|col|, i requires 0 <= i < |col| => Str(Split(col[i].s)[0]));
      var seconds := seq(|col|, i requires 0 <= i < |col| => Str(Split(col[i].s)[1]));
      CellsSplitInTwo(col);
      Some((firsts, seconds))
    else None
  }

  /** Cells whose text splits in two are each the first piece and the second piece as words. */
  lemma CellsSplitInTwo(col: seq<Cell>)
    requires AllSplitInTwo(col)
    ensures forall i :: 0 <= i < |col| ==> TwoWords(col[i].s, Split(col[i].s)[0], Split(col[i].s)[1])
  {
    forall i | 0 <= i < |col| ensures TwoWords(col[i].s, Split(col[i].s)[0], Split(col[i].s)[1]) {
      var w := Split(col[i].s);
      assert w == [w[0], w[1]];
      SplitTwo(col[i].s, w[0], w[1]);
    }
  }

  /** Every cell is text of two whitespace-separated words. */
  ghost predicate AllTwoWords(col: seq<Cell>) {
    forall i :: 0 <= i < |col| ==> col[i].Str? && exists a, b :: TwoWords(col[i].s, a, b)
  }

  /** Every cell is text that `str.split()` cuts into two pieces. */
  predicate AllSplitInTwo(col: seq<Cell>) {
    forall i :: 0 <= i < |col| ==> col[i].Str? && |Split(col[i].s)| == 2
  }

  /** Every cell is text that splits in two exactly when every cell is text of two words. */
  lemma CellsOfTwoWords(col: seq<Cell>)
    ensures AllSplitInTwo(col) <==> AllTwoWords(col)
  {
    if AllSplitInTwo(col) {
      forall i | 0 <= i < |col| ensures col[i].Str? && exists a, b :: TwoWords(col[i].s, a, b) {
        SplitHasTwo(col[i].s);
      }
    }
    if AllTwoWords(col) {
      forall i | 0 <= i < |col| ensures col[i].Str? && |Split(col[i].s)| == 2 {
        SplitHasTwo(col[i].s);
      }
    }
  }

  /**
   * Text of two words separated by whitespace (such as "40 HC") splits into those two words:
   * the first goes to `container_type`, the second to `container_size`.
   */
  lemma SplitTwoWordCell(first: string, gap: string, second: string)
    requires first != [] && NoSpace(first) && second != [] && NoSpace(second)
    requires gap != [] && AllSpace(gap)
    ensures SplitColumn([Str(first + gap + second)]) == Some(([Str(first)], [Str(second)]))
  {
    SplitTwoWords(first, gap, second);
    SplitSingle(first + gap + second, first, second);
  }

  /** One cell of two words splits into one cell each. */
  lemma SplitSingle(s: string, a: string, b: string)
    requires Split(s) == [a, b]
    ensures SplitColumn([Str(s)]) == Some(([Str(a)], [Str(b)]))
  {
    var col := [Str(s)];
    SplitTwo(s, a, b);
    assert AllTwoWords(col) by { assert col[0].s == s; }
    var r := SplitColumn(col);
    var first, second := r.value.0[0], r.value.1[0];
    assert TwoWords(s, first.s, second.s) by { assert col[0].s == s; }
    SplitTwo(s, first.s, second.s);
    assert r.value.0 == [first] && r.value.1 == [second];
  }

  /** A single word (such as "40HC") gives one column only, so the two-column assignment raises. */
  lemma SplitOneWordRefused(w: string)
    requires w != [] && NoSpace(w)
    ensures SplitColumn([Str(w)]) == None
  {
    SplitOneWord(w);
    var col := [Str(w)];
    assert col[0].s == w && |Split(col[0].s)| == 1;
  }

  const Date := "date"
  const Individual := "individual"
  const Container := "container"
  const ContainerNumber := "container_number"
  const TypeAndSize := "container_type_and_size"
  const ContainerType := "container_type"
  const ContainerSize := "container_size"

  /** `df['date'] = df['date'].apply(...)`; `None` when it raises. */
  function DateStep(t: Table): (r: Option<Table>)
    requires Rectangular(t)
    ensures r.Some? ==> Rectangular(r.value)
  {
    match Column(t, Date)
    case Failure(_) => None
    case Success(v) => Some(Assign(t, Date, seq(|v|, i requires 0 <= i < |v| => ConvertCell(v[i]))))
  }

  /** `df['container_number'] = df['individual'] + df['container']`; `None` when it raises. */
  function ConcatStep(t: Table): (r: Option<Table>)
    requires Rectangular(t)
    ensures r.Some? ==> Rectangular(r.value)
  {
    match (Column(t, Individual), Column(t, Container))
    case (Success(x), Success(y)) =>
      (match AddColumns(x, y)
       case None => None
       case Some(v) => Some(Assign(t, ContainerNumber, v)))
    case _ => None
  }

  /** `df[['container_type', 'container_size']] = ...str.split(expand=True)`; `None` when it raises. */
  function SplitStep(t: Table): (r: Option<Table>)
    requires Rectangular(t)
    ensures r.Some? ==> Rectangular(r.value)
  {
    match Column(t, TypeAndSize)
    case Failure(_) => None
    case Success(v) =>
      (match SplitColumn(v)
       case None => None
       case Some(parts) => Some(Assign(Assign(t, ContainerType, parts.0), ContainerSize, parts.1)))
  }

  /**
   * `change_type_and_values`: the three assignments run in order inside `suppress(Exception)`.
   * The first that raises ends the block; what the earlier ones did stays.
   */
  function ChangedTypesAndValues(t: Table): (r: Table)
    requires Rectangular(t)
    ensures Rectangular(r) && |r.rows| == |t.rows|
  {
    match DateStep(t)
    case None => t
    case Some(t1) =>
      match ConcatStep(t1)
      case None => t1
      case Some(t2) =>
        match SplitStep(t2)
        case None => t2
        case Some(t3) => t3
  }

  /** The converted `date` column. */
  function ConvertedDates(v: seq<Cell>): (r: seq<Cell>)
    ensures |r| == |v| && forall i :: 0 <= i < |v| ==> r[i] == ConvertCell(v[i])
  {
    seq(|v|, i requires 0 <= i < |v| => ConvertCell(v[i]))
  }

  /** The columns `change_type_and_values` may add. */
  const DerivedColumns: seq<string> := [ContainerNumber, ContainerType, ContainerSize]

  /** Without a (single) `date` column the block raises at once: nothing is derived, even when the other columns are there. */
  lemma ChangedWithoutDate(t: Table)
    requires Rectangular(t) && Occurrences(t.columns, Date) != 1
    ensures ChangedTypesAndValues(t) == t
  {
  }

  /**
   * When the concatenation raises, the block stops after the dates: `date` is converted, no
   * column is added, and `container_type_and_size` is not split.
   */
  lemma ChangedDatesOnly(t: Table)
    requires Rectangular(t) && Occurrences(t.columns, Date) == 1
    requires ConcatStep(Assign(t, Date, ConvertedDates(Column(t, Date).value))).None?
    ensures var r := ChangedTypesAndValues(t);
      && r.columns == t.columns
      && Column(r, Date) == Success(ConvertedDates(Column(t, Date).value))
  {
    var v := ConvertedDates(Column(t, Date).value);
    AssignThenColumn(t, Date, v);
  }

  /**
   * The concatenation raises exactly when `individual` or `container` cannot be selected
   * (`KeyError`), or some row pairs text with an integer (`TypeError`).
   */
  lemma ConcatStepFails(t: Table)
    requires Rectangular(t)
    ensures ConcatStep(t).None? <==>
      || Column(t, Individual).Failure? || Column(t, Container).Failure?
      || exists i :: 0 <= i < |t.rows| && Mixed(Column(t, Individual).value[i], Column(t, Container).value[i])
  {
  }

  /** A missing `individual` or `container` column stops the block after the dates. */
  lemma ChangedWithoutOperands(t: Table)
    requires Rectangular(t) && Occurrences(t.columns, Date) == 1
    requires Individual !in t.columns || Container !in t.columns
    ensures var r := ChangedTypesAndValues(t);
      && r.columns == t.columns
      && Column(r, Date) == Success(ConvertedDates(Column(t, Date).value))
  {
    var v := ConvertedDates(Column(t, Date).value);
    var t1 := Assign(t, Date, v);
    AssignOtherColumn(t, Date, v, Individual);
    AssignOtherColumn(t, Date, v, Container);
    ConcatStepFails(t1);
    ChangedDatesOnly(t);
  }

  /** A row pairing text with an integer (a `TypeError`) stops the block after the dates. */
  lemma ChangedAfterTypeError(t: Table, i: nat)
    requires Rectangular(t) && Occurrences(t.columns, Date) == 1
    requires Column(t, Individual).Success? && Column(t, Container).Success?
    requires i < |t.rows| && Mixed(Column(t, Individual).value[i], Column(t, Container).value[i])
    ensures var r := ChangedTypesAndValues(t);
      && r.columns == t.columns
      && Column(r, Date) == Success(ConvertedDates(Column(t, Date).value))
  {
    var v := ConvertedDates(Column(t, Date).value);
    var t1 := Assign(t, Date, v);
    AssignOtherColumn(t, Date, v, Individual);
    AssignOtherColumn(t, Date, v, Container);
    ConcatStepFails(t1);
    ChangedDatesOnly(t);
  }

  /**
   * When the split raises (a cell that is not text of exactly two words, such as "40HC", or no
   * `container_type_and_size` column), `date` stays converted and `container_number` stays
   * assigned, and neither `container_type` nor `container_size` is added.
   */
  lemma ChangedWithoutSplit(t: Table)
    requires Rectangular(t) && Occurrences(t.columns, Date) == 1
    requires Column(t, Individual).Success? && Column(t, Container).Success?
    requires AddColumns(Column(t, Individual).value, Column(t, Container).value).Some?
    requires Column(t, TypeAndSize).Failure? || SplitColumn(Column(t, TypeAndSize).value).None?
    requires Occurrences(t.columns, ContainerNumber) <= 1
    ensures var r := ChangedTypesAndValues(t);
      && r.columns == (if ContainerNumber in t.columns then t.columns else t.columns + [ContainerNumber])
      && Column(r, Date) == Success(ConvertedDates(Column(t, Date).value))
      && Column(r, ContainerNumber) == Success(AddColumns(Column(t, Individual).value, Column(t, Container).value).value)
  {
    var dates := ConvertedDates(Column(t, Date).value);
    var t1 := Assign(t, Date, dates);
    AssignThenColumn(t, Date, dates);
    AssignOtherColumn(t, Date, dates, Individual);
    AssignOtherColumn(t, Date, dates, Container);
    AssignOtherColumn(t, Date, dates, TypeAndSize);
    var sum := AddColumns(Column(t, Individual).value, Column(t, Container).value).value;
    var t2 := Assign(t1, ContainerNumber, sum);
    assert ConcatStep(t1) == Some(t2);
    AssignOccurrences(t, Date, dates, ContainerNumber);
    AssignThenColumn(t1, ContainerNumber, sum);
    AssignOtherColumn(t1, ContainerNumber, sum, Date);
    AssignOtherColumn(t1, ContainerNumber, sum, TypeAndSize);
    assert SplitStep(t2).None?;
  }

  /**
   * When every step succeeds: `date` holds the converted dates, `container_number` the cell-wise
   * sum of `individual` and `container`, and `container_type` and `container_size` the first and
   * second word of `container_type_and_size`.
   */
  lemma ChangedAllSteps(t: Table)
    requires Rectangular(t) && Occurrences(t.columns, Date) == 1
    requires Column(t, Individual).Success? && Column(t, Container).Success?
    requires AddColumns(Column(t, Individual).value, Column(t, Container).value).Some?
    requires Column(t, TypeAndSize).Success? && SplitColumn(Column(t, TypeAndSize).value).Some?
    requires forall x :: x in DerivedColumns ==> Occurrences(t.columns, x) <= 1
    ensures var r := ChangedTypesAndValues(t);
      && Column(r, Date) == Success(ConvertedDates(Column(t, Date).value))
      && Column(r, ContainerNumber) == Success(AddColumns(Column(t, Individual).value, Column(t, Container).value).value)
      && Column(r, ContainerType) == Success(SplitColumn(Column(t, TypeAndSize).value).value.0)
      && Column(r, ContainerSize) == Success(SplitColumn(Column(t, TypeAndSize).value).value.1)
  {
    var dates := ConvertedDates(Column(t, Date).value);
    var t1 := Assign(t, Date, dates);
    AssignThenColumn(t, Date, dates);
    AssignOtherColumn(t, Date, dates, Individual);
    AssignOtherColumn(t, Date, dates, Container);
    AssignOtherColumn(t, Date, dates, TypeAndSize);
    var sum := AddColumns(Column(t, Individual).value, Column(t, Container).value).value;
    var t2 := Assign(t1, ContainerNumber, sum);
    assert ConcatStep(t1) == Some(t2);
    AssignOccurrences(t, Date, dates, ContainerNumber);
    AssignOccurrences(t, Date, dates, ContainerType);
    AssignOccurrences(t, Date, dates, ContainerSize);
    AssignThenColumn(t1, ContainerNumber, sum);
    AssignOtherColumn(t1, ContainerNumber, sum, Date);
    AssignOtherColumn(t1, ContainerNumber, sum, TypeAndSize);
    AssignOccurrences(t1, ContainerNumber, sum, ContainerType);
    AssignOccurrences(t1, ContainerNumber, sum, ContainerSize);
    var parts := SplitColumn(Column(t, TypeAndSize).value).value;
    var t3 := Assign(t2, ContainerType, parts.0);
    assert SplitStep(t2) == Some(Assign(t3, ContainerSize, parts.1));
    AssignThenColumn(t2, ContainerType, parts.0);
    AssignOtherColumn(t2, ContainerType, parts.0, Date);
    AssignOtherColumn(t2, ContainerType, parts.0, ContainerNumber);
    AssignOccurrences(t2, ContainerType, parts.0, ContainerSize);
    AssignThenColumn(t3, ContainerSize, parts.1);
    AssignOtherColumn(t3, ContainerSize, parts.1, Date);
    AssignOtherColumn(t3, ContainerSize, parts.1, ContainerNumber);
    AssignOtherColumn(t3, ContainerSize, parts.1, ContainerType);
  }

  /** `r` is `t` with, possibly, columns named in `allowed` appended. */
  predicate Appended(t: seq<string>, r: seq<string>, allowed: set<string>) {
    |r| >= |t| && r[..|t|] == t && forall k :: |t| <= k < |r| ==> r[k] in allowed
  }

  lemma AssignAppended(t: Table, name: string, values: seq<Cell>, allowed: set<string>)
    requires Rectangular(t) && |values| == |t.rows| && name in allowed
    ensures Appended(t.columns, Assign(t, name, values).columns, allowed)
  {
  }

  lemma AppendedTrans(a: seq<string>, b: seq<string>, c: seq<string>, allowed: set<string>, more: set<string>)
    requires Appended(a, b, allowed) && Appended(b, c, more)
    ensures Appended(a, c, allowed + more)
  {
    assert c[..|a|] == c[..|b|][..|a|];
  }

  /** The block keeps the existing columns in place and can only append derived ones. */
  lemma ChangedColumns(t: Table)
    requires Rectangular(t)
    ensures Appended(t.columns, ChangedTypesAndValues(t).columns, {ContainerNumber, ContainerType, ContainerSize})
  {
    var derived := {ContainerNumber, ContainerType, ContainerSize};
    match DateStep(t)
    case None =>
    case Some(t1) =>
      AssignAppended(t, Date, ConvertedDates(Column(t, Date).value), {Date});
      assert t1.columns == t.columns;
      match ConcatStep(t1)
      case None =>
      case Some(t2) =>
        var sum := AddColumns(Column(t1, Individual).value, Column(t1, Container).value).value;
        AssignAppended(t1, ContainerNumber, sum, derived);
        match SplitStep(t2)
        case None =>
        case Some(t3) =>
          var parts := SplitColumn(Column(t2, TypeAndSize).value).value;
          var t25 := Assign(t2, ContainerType, parts.0);
          AssignAppended(t2, ContainerType, parts.0, derived);
          AssignAppended(t25, ContainerSize, parts.1, derived);
          AppendedTrans(t2.columns, t25.columns, t3.columns, derived, derived);
          AppendedTrans(t.columns, t2.columns, t3.columns, derived, derived);
  }

  /** Every column other than `date` and the derived ones reads the same after the block. */
  lemma ChangedKeepsColumn(t: Table, x: string)
    requires Rectangular(t) && x != Date && x !in DerivedColumns
    ensures Column(ChangedTypesAndValues(t), x) == Column(t, x)
  {
    match DateStep(t)
    case None =>
    case Some(t1) =>
      AssignOtherColumn(t, Date, ConvertedDates(Column(t, Date).value), x);
      match ConcatStep(t1)
      case None =>
      case Some(t2) =>
        var sum := AddColumns(Column(t1, Individual).value, Column(t1, Container).value).value;
        AssignOtherColumn(t1, ContainerNumber, sum, x);
        match SplitStep(t2)
        case None =>
        case Some(t3) =>
          var parts := SplitColumn(Column(t2, TypeAndSize).value).value;
          AssignOtherColumn(t2, ContainerType, parts.0, x);
          AssignOtherColumn(Assign(t2, ContainerType, parts.0), ContainerSize, parts.1, x);
  }

  // ---------------------------------------------------------------- add_new_columns

  /** The two columns `add_new_columns` writes, in the order it writes them. */
  const FileColumns: seq<string> := ["original_file_name", "original_file_parsed_on"]

  /** `add_new_columns`: the input's base name and the time of the run, each broadcast to every row. */
  function WithFileColumns(t: Table, base: string, now: string): (r: Table)
    requires Rectangular(t)
    ensures Rectangular(r) && |r.rows| == |t.rows|
  {
    var t1 := Assign(t, FileColumns[0], Broadcast(|t.rows|, Str(base)));
    Assign(t1, FileColumns[1], Broadcast(|t.rows|, Str(now)))
  }

  /**
   * The file columns read back as the base name and the time of the run; every other column is
   * unchanged; and the shipment export's `gtd_number` and `parsed_on` are not added.
   */
  lemma WithFileColumnsCells(t: Table, base: string, now: string)
    requires Rectangular(t) && forall x :: x in FileColumns ==> Occurrences(t.columns, x) <= 1
    ensures var r := WithFileColumns(t, base, now);
      && Column(r, FileColumns[0]) == Success(Broadcast(|t.rows|, Str(base)))
      && Column(r, FileColumns[1]) == Success(Broadcast(|t.rows|, Str(now)))
      && (forall x :: x !in FileColumns ==> Column(r, x) == Column(t, x))
      && (forall x :: x !in FileColumns ==> (x in r.columns <==> x in t.columns))
  {
    var n := |t.rows|;
    var t1 := Assign(t, FileColumns[0], Broadcast(n, Str(base)));
    AssignThenColumn(t, FileColumns[0], Broadcast(n, Str(base)));
    AssignOccurrences(t, FileColumns[0], Broadcast(n, Str(base)), FileColumns[1]);
    AssignThenColumn(t1, FileColumns[1], Broadcast(n, Str(now)));
    AssignOtherColumn(t1, FileColumns[1], Broadcast(n, Str(now)), FileColumns[0]);
    forall x | x !in FileColumns
      ensures Column(WithFileColumns(t, base, now), x) == Column(t, x)
    {
      AssignOtherColumn(t, FileColumns[0], Broadcast(n, Str(base)), x);
      AssignOtherColumn(t1, FileColumns[1], Broadcast(n, Str(now)), x);
    }
  }

  // ---------------------------------------------------------------- the script object

  /**
   * The whole of `main` after the spreadsheet is read: empty rows dropped, headers renamed,
   * text stripped, the file columns added, the derived values computed as far as they go, and
   * NaN and "NaT" replaced by `None`. Nothing in it raises.
   */
  function Pipeline(loaded: Table, path: string, now: string): (r: Table)
    requires Rectangular(loaded)
    ensures Rectangular(r)
  {
    var t := StripAll(Rename(DropEmptyRows(loaded), HeadersEng));
    ReplaceNulls(ChangedTypesAndValues(WithFileColumns(t, BaseName(path), now)))
  }

  /** `OrdersReport`: one input spreadsheet and the folder its JSON goes to. */
  class OrdersReport {
    const inputFilePath: string
    const outputFolder: string

    constructor (inputFilePath: string, outputFolder: string)
      ensures this.inputFilePath == inputFilePath && this.outputFolder == outputFolder
    {
      this.inputFilePath := inputFilePath;
      this.outputFolder := outputFolder;
    }

    /**
     * `change_type_and_values`: the three assignments in order, in place; the first that
     * raises ends the block and the earlier ones stay done.
     */
    method ChangeTypeAndValues(df: DataFrame)
      requires df.Valid()
      modifies df
      ensures df.Valid() && df.View() == ChangedTypesAndValues(old(df.View()))
    {
      var dates := Column(df.View(), Date);
      if dates.Failure? {
        return;
      }
      df.Set(Date, ConvertedDates(dates.value));
      var individual := Column(df.View(), Individual);
      var container := Column(df.View(), Container);
      if individual.Failure? || container.Failure? {
        return;
      }
      var sum := AddColumns(individual.value, container.value);
      if sum.None? {
        return;
      }
      df.Set(ContainerNumber, sum.value);
      var typeAndSize := Column(df.View(), TypeAndSize);
      if typeAndSize.Failure? {
        return;
      }
      var parts := SplitColumn(typeAndSize.value);
      if parts.None? {
        return;
      }
      df.Set(ContainerType, parts.value.0);
      df.Set(ContainerSize, parts.value.1);
    }

    /** `add_new_columns`, with the time of the run passed in as `now`. */
    method AddNewColumns(df: DataFrame, now: string)
      requires df.Valid()
      modifies df
      ensures df.Valid() && df.View() == WithFileColumns(old(df.View()), BaseName(inputFilePath), now)
    {
      df.SetAll(FileColumns[0], Str(BaseName(inputFilePath)));
      df.SetAll(FileColumns[1], Str(now));
    }

    /** `main`, from the table the spreadsheet reader returns to the table written as JSON records. */
    method Run(loaded: Table, now: string) returns (r: Table)
      requires Rectangular(loaded)
      ensures r == Pipeline(loaded, inputFilePath, now)
    {
      var t := DropEmptyRows(loaded);
      t := Rename(t, HeadersEng);
      t := StripAll(t);
      var df := new DataFrame(t);
      AddNewColumns(df, now);
      ChangeTypeAndValues(df);
      r := ReplaceNulls(df.View());
    }
  }

  /** Unlike the shipment export, rename keeps every column, in order, unmapped headers under their own names. */
  lemma RenameKeepsColumns(t: Table)
    ensures var r := Rename(t, HeadersEng);
      && |r.columns| == |t.columns| && r.rows == t.rows
      && forall j :: 0 <= j < |t.columns| ==>
           r.columns[j] == (if t.columns[j] in HeadersEng then HeadersEng[t.columns[j]] else t.columns[j])
  {
  }

  /** The frame `add_new_columns` receives: empty rows dropped, headers renamed, text stripped. */
  function Prepared(loaded: Table): (r: Table)
    requires Rectangular(loaded)
    ensures Rectangular(r) && r.columns == RenameColumns(loaded.columns, HeadersEng)
    ensures |r.rows| == |NonEmptyRows(loaded.rows)|
  {
    StripAll(Rename(DropEmptyRows(loaded), HeadersEng))
  }

  lemma PipelineStages(loaded: Table, path: string, now: string)
    requires Rectangular(loaded)
    ensures Pipeline(loaded, path, now) ==
      ReplaceNulls(ChangedTypesAndValues(WithFileColumns(Prepared(loaded), BaseName(path), now)))
  {
  }

  /** The columns the script adds to the spreadsheet's own. */
  const AddedColumns: set<string> := {FileColumns[0], FileColumns[1], ContainerNumber, ContainerType, ContainerSize}

  /**
   * The output's columns are the renamed input columns, then the two file columns (unless the
   * input already had them), then whichever derived columns the block got to.
   */
  lemma PipelineColumns(loaded: Table, path: string, now: string)
    requires Rectangular(loaded)
    ensures Appended(RenameColumns(loaded.columns, HeadersEng), Pipeline(loaded, path, now).columns, AddedColumns)
  {
    var t := Prepared(loaded);
    var n := |t.rows|;
    var t1 := Assign(t, FileColumns[0], Broadcast(n, Str(BaseName(path))));
    var w := WithFileColumns(t, BaseName(path), now);
    AssignAppended(t, FileColumns[0], Broadcast(n, Str(BaseName(path))), {FileColumns[0]});
    AssignAppended(t1, FileColumns[1], Broadcast(n, Str(now)), {FileColumns[1]});
    AppendedTrans(t.columns, t1.columns, w.columns, {FileColumns[0]}, {FileColumns[1]});
    ChangedColumns(w);
    AppendedTrans(t.columns, w.columns, ChangedTypesAndValues(w).columns,
      {FileColumns[0], FileColumns[1]}, {ContainerNumber, ContainerType, ContainerSize});
    PipelineStages(loaded, path, now);
  }

  /** The shipment export's `gtd_number` and `parsed_on` appear in the output only when the spreadsheet had them. */
  lemma NoShipmentColumns(loaded: Table, path: string, now: string)
    requires Rectangular(loaded)
    ensures var r := Pipeline(loaded, path, now);
      && ("gtd_number" in r.columns <==> "gtd_number" in loaded.columns)
      && ("parsed_on" in r.columns <==> "parsed_on" in loaded.columns)
  {
    PipelineColumns(loaded, path, now);
    ShipmentNamesNotAdded(loaded.columns, Pipeline(loaded, path, now).columns);
  }

  lemma ShipmentNamesNotAdded(cols: seq<string>, r: seq<string>)
    requires Appended(RenameColumns(cols, HeadersEng), r, AddedColumns)
    ensures "gtd_number" in r <==> "gtd_number" in cols
    ensures "parsed_on" in r <==> "parsed_on" in cols
  {
    NoEnglishName("gtd_number");
    NoEnglishName("parsed_on");
    NotAdded(cols, r, "gtd_number", AddedColumns);
    NotAdded(cols, r, "parsed_on", AddedColumns);
  }

  /** A name no header is renamed to and no stage adds is in the output exactly when it was in the input. */
  lemma NotAdded(cols: seq<string>, r: seq<string>, x: string, added: set<string>)
    requires x !in added && x !in HeadersEng && forall h :: h in HeadersEng ==> HeadersEng[h] != x
    requires Appended(RenameColumns(cols, HeadersEng), r, added)
    ensures x in r <==> x in cols
  {
    var names := RenameColumns(cols, HeadersEng);
    if x in cols {
      var j :| 0 <= j < |cols| && cols[j] == x;
      assert names[j] == x;
      assert r[j] == names[j];
    }
    if x in r {
      var j :| 0 <= j < |r| && r[j] == x;
      assert j < |names|;
      assert r[..|names|][j] == x;
      assert names[j] == x;
    }
  }

  /** No header is renamed to `gtd_number` or `parsed_on`. */
  lemma NoEnglishName(x: string)
    requires x == "gtd_number" || x == "parsed_on"
    ensures x !in HeadersEng && forall h :: h in HeadersEng ==> HeadersEng[h] != x
  {
  }

  /**
   * The output has one row per non-empty input row, no NaN or "NaT" cell, and (when the input
   * had no such columns) `original_file_name` and `original_file_parsed_on` hold the input's
   * base name and the time of the run in every row.
   */
  lemma PipelineOutput(loaded: Table, path: string, now: string)
    requires Rectangular(loaded)
    requires forall x :: x in FileColumns ==> x !in loaded.columns
    requires BaseName(path) != "NaT" && now != "NaT"
    ensures var r := Pipeline(loaded, path, now);
      && |r.rows| == |NonEmptyRows(loaded.rows)|
      && (forall i, j :: 0 <= i < |r.rows| && 0 <= j < |r.rows[i]| ==> !r.rows[i][j].Missing? && r.rows[i][j] != Str("NaT"))
      && Column(r, FileColumns[0]) == Success(Broadcast(|r.rows|, Str(BaseName(path))))
      && Column(r, FileColumns[1]) == Success(Broadcast(|r.rows|, Str(now)))
  {
    var t := Prepared(loaded);
    var w := WithFileColumns(t, BaseName(path), now);
    PipelineStages(loaded, path, now);
    FileColumnsNotRenamed(loaded.columns);
    WithFileColumnsCells(t, BaseName(path), now);
    ReplaceNullsCells(ChangedTypesAndValues(w));
    FileColumnKept(w, 0, BaseName(path));
    FileColumnKept(w, 1, now);
  }

  /** A file column written by `add_new_columns` reads the same after the block and after null replacement. */
  lemma FileColumnKept(w: Table, k: nat, v: string)
    requires Rectangular(w) && k < 2 && v != "NaT"
    requires Column(w, FileColumns[k]) == Success(Broadcast(|w.rows|, Str(v)))
    ensures Column(ReplaceNulls(ChangedTypesAndValues(w)), FileColumns[k]) == Success(Broadcast(|w.rows|, Str(v)))
  {
    var c := ChangedTypesAndValues(w);
    ChangedKeepsColumn(w, FileColumns[k]);
    ReplaceNullsColumn(c, FileColumns[k]);
  }

  /** Neither file column is the English name of a header. */
  lemma FileColumnsNotRenamed(cols: seq<string>)
    requires forall x :: x in FileColumns ==> x !in cols
    ensures forall x :: x in FileColumns ==> x !in RenameColumns(cols, HeadersEng)
  {
  }

  /** After null replacement a column of text other than "NaT" reads as before. */
  lemma ReplaceNullsColumn(t: Table, x: string)
    requires Rectangular(t) && Column(t, x).Success?
    requires forall i :: 0 <= i < |t.rows| ==> Column(t, x).value[i].Str? && Column(t, x).value[i] != Str("NaT")
    ensures Column(ReplaceNulls(t), x) == Column(t, x)
  {
    var r := ReplaceNulls(t);
    ReplaceNullsCells(t);
    var j := IndexOf(t.columns, x);
    assert Column(r, x).value == Column(t, x).value;
  }
}
