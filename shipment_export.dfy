/**
 * The shipment export script (main.py): converts one shipment spreadsheet, already loaded
 * as a table, into the list of row records that the script writes as JSON.
 */
module ShipmentExport {
  import opened Wrappers
  import opened PyText
  import opened Strptime
  import opened Frames

  /** `headers_eng`: source header to canonical field name. */
  const HeadersEng: map<string, string> := map[
    "Терминал" := "terminal",
    "Линия" := "line",
    "Дата отгрузки" := "shipment_date",
    "Количество" := "container_count",
    "Размер контейнера" := "container_size",
    "TEU" := "teu",
    "Тип контейнера" := "container_type",
    "Порт выгрузки" := "tracking_seaport",
    "Страна выгрузки" := "tracking_country",
    "Судно" := "ship_name",
    "Рейс" := "voyage",
    "Контейнер из партии" := "container_number",
    "Отправитель" := "shipper_name",
    "Получатель" := "consignee_name",
    "Наименование товара" := "goods_name",
    "Номер коносамента" := "consignment",
    "Экспедитор" := "expeditor",
    "ИНН Грузоотправителя" := "shipper_inn",
    "ТНВЭД" := "tnved"
  ]

  /** `date_formats`: "%Y-%m-%d", "%d.%m.%Y", "%Y-%m-%d %H:%M:%S", tried in this order. */
  const DateFormats: seq<Format> := [YmdDash, DmyDot, YmdDashHms]

  /** The placeholder written into `gtd_number` ("no data"). */
  const NoData := "Нет данных"

  // ---------------------------------------------------------------- convert_format_date

  /**
   * `convert_format_date`: the ISO date of the first format in `DateFormats` that reads the
   * whole of `date` as a valid date-time, any time of day dropped; `None` when none does.
   */
  function ConvertFormatDate(date: string): (r: Option<string>)
    ensures r.None? <==> forall i :: 0 <= i < |DateFormats| ==> Parse(date, DateFormats[i]).None?
    ensures r.Some? ==>
      exists i :: (0 <= i < |DateFormats| && Parse(date, DateFormats[i]).Some?
        && r.value == Iso(Parse(date, DateFormats[i]).value)
        && forall j :: 0 <= j < i ==> Parse(date, DateFormats[j]).None?)
  {
    match FirstParse(date, DateFormats)
    case None => None
    case Some(dt) => Some(Iso(dt))
  }

  /** A valid date written as `YYYY-MM-DD` converts to itself. */
  lemma ConvertIso(dt: DateTime)
    requires ValidDateTime(dt)
    ensures ConvertFormatDate(Iso(dt)) == Some(Iso(dt))
  {
    DateRoundTrip(dt, YmdDash);
    IsoOfDate(DateTime(dt.year, dt.month, dt.day, 0, 0, 0), dt);
    FirstFormat(Iso(dt));
  }

  /** A valid date written as `DD.MM.YYYY` converts to its ISO date; the first format refuses it. */
  lemma ConvertDayFirst(dt: DateTime)
    requires ValidDateTime(dt)
    ensures ConvertFormatDate(Written(dt, DmyDot)) == Some(Iso(dt))
  {
    ValidInRange(dt, DmyDot);
    DayFirstRefusedByYearFirst(dt, DmyDot);
    DateRoundTrip(dt, DmyDot);
    IsoOfDate(DateTime(dt.year, dt.month, dt.day, 0, 0, 0), dt);
    SecondFormat(Written(dt, DmyDot));
  }

  /** A valid date-time written as `YYYY-MM-DD HH:MM:SS` converts to its date, the time dropped. */
  lemma ConvertDropsTime(dt: DateTime)
    requires ValidDateTime(dt)
    ensures ConvertFormatDate(Written(dt, YmdDashHms)) == Some(Iso(dt))
  {
    ValidInRange(dt, YmdDashHms);
    DateRefusesTime(dt, YmdDash, Hms);
    YearFirstRefusedByDayFirst(dt, YmdDashHms);
    DateTimeRoundTrip(dt, YmdDashHms);
    ThirdFormat(Written(dt, YmdDashHms));
  }

  /** A day past the end of its month, written `DD.MM.YYYY`, is no date: every format refuses it. */
  lemma ConvertImpossibleDay(dt: DateTime)
    requires 1 <= dt.year <= 9999 && 1 <= dt.month <= 12 && DaysInMonth(dt.year, dt.month) < dt.day <= 31
    ensures ConvertFormatDate(Written(dt, DmyDot)) == None
  {
    WrittenDayFirst(dt);
    DayFirstRefusedByYearFirst(dt, DmyDot);
    InvalidDateRefused(dt);
    NoFormat(Written(dt, DmyDot));
  }

  /** "31.02.2023" converts to `None`. */
  lemma ConvertThirtyFirstFebruary()
    ensures ConvertFormatDate("31.02.2023") == None
  {
    var dt := DateTime(2023, 2, 31, 0, 0, 0);
    ThirtyFirstFebruaryText(dt);
    ConvertImpossibleDay(dt);
  }

  lemma ThirtyFirstFebruaryText(dt: DateTime)
    requires dt == DateTime(2023, 2, 31, 0, 0, 0)
    ensures Written(dt, DmyDot) == "31.02.2023"
  {
    WrittenDayFirst(dt);
    assert Digits(dt, Day) == "31" by { assert Pad2(31) == [DigitChar(3), DigitChar(1)]; }
    assert Digits(dt, Month) == "02" by { assert Pad2(2) == [DigitChar(0), DigitChar(2)]; }
    assert Digits(dt, Year) == "2023" by {
      assert Pad2(20) == [DigitChar(2), DigitChar(0)];
      assert Pad2(23) == [DigitChar(2), DigitChar(3)];
    }
  }

  /**
   * Text that starts with neither a digit nor a space (such as "nan" or "None") converts to
   * `None`. A space is left open because `%d` also reads a space and one digit 1-9.
   */
  lemma ConvertNeedsLeadingDigit(s: string)
    requires s == [] || (!IsDigit(s[0]) && s[0] != ' ')
    ensures ConvertFormatDate(s) == None
  {
    FirstTokenRefused(s, YmdDash);
    FirstTokenRefused(s, DmyDot);
    FirstTokenRefused(s, YmdDashHms);
    NoFormat(s);
  }

  /** Text made of digits alone (`str` of a non-negative integer, such as "20230401") converts to `None`. */
  lemma ConvertAllDigits(s: string)
    requires AllDigits(s)
    ensures ConvertFormatDate(s) == None
  {
    AllDigitsRefused(s, YmdDash);
    AllDigitsRefused(s, DmyDot);
    AllDigitsRefused(s, YmdDashHms);
    NoFormat(s);
  }

  /** `%d` also reads a space and one digit 1-9, so " 5.01.2023" converts to "2023-01-05". */
  lemma ConvertSpacedDay()
    ensures ConvertFormatDate(" 5.01.2023") == Some("2023-01-05")
  {
    var s := " 5.01.2023";
    var dt := DateTime(2023, 1, 5, 0, 0, 0);
    assert DigitRun(s) == 0;
    FirstTokenRefused(s, YmdDash);
    SpacedDayParsed();
    ParseValid(s, DmyDot, dt);
    SecondFormat(s);
    SpacedDayIso(dt);
  }

  lemma SpacedDayParsed()
    ensures ParseFrom(" 5.01.2023", DmyDot, Defaults) == Some(DateTime(2023, 1, 5, 0, 0, 0))
  {
    assert " 5.01.2023" == [' ', '5'] + (['.'] + ("01" + ['.'] + "2023"));
    assert Value("01") == 1 by { Pad2Value("01"); }
    assert Value("2023") == 2023 by {
      Pad2Value("20");
      Pad2Value("23");
      assert "2023" == "20" + "23";
      ValueAppendPair("20", "23");
    }
    ParseSpacedDmy('5', "01", "2023");
  }

  /** "%d.%m.%Y" reads a space and a digit 1-9 as the day, then the month and the year. */
  lemma ParseSpacedDmy(c: char, m: string, y: string)
    requires '1' <= c <= '9'
    requires 1 <= |m| <= 2 && AllDigits(m) && 1 <= Value(m) <= 12 && |y| == 4 && AllDigits(y)
    ensures ParseFrom([' ', c] + (['.'] + (m + ['.'] + y)), DmyDot, Defaults)
      == Some(DateTime(Value(y), Value(m), c as int - '0' as int, 0, 0, 0))
  {
    ValueBound(y);
    assert Pow10(4) == 10000;
    assert DmyDot == [Num(Day)] + ([Lit('.')] + ([Num(Month), Lit('.')] + [Num(Year)]));
    var rest: Format := [Num(Month), Lit('.')] + [Num(Year)];
    var a1 := Put(Defaults, Day, c as int - '0' as int);
    var a2 := Put(a1, Month, Value(m));
    ParseSpacedDayStep(c, ['.'] + (m + ['.'] + y), [Lit('.')] + rest, Defaults);
    ParseLitStep('.', m + ['.'] + y, rest, a1);
    ParseFieldDot(m, y, Month, [Num(Year)], a1);
    assert y + [] == y && [Num(Year)] + [] == [Num(Year)];
    ParseNumStep(y, [], Year, [], a2);
    var a3 := Put(a2, Year, Value(y));
    assert a3 == DateTime(Value(y), Value(m), c as int - '0' as int, 0, 0, 0);
    assert ParseFrom([], [], a3) == Some(a3);
  }

  lemma SpacedDayIso(dt: DateTime)
    requires dt == DateTime(2023, 1, 5, 0, 0, 0)
    ensures Iso(dt) == "2023-01-05"
  {
    WrittenIso(dt);
    assert Digits(dt, Day) == "05" by { assert Pad2(5) == [DigitChar(0), DigitChar(5)]; }
    assert Digits(dt, Month) == "01" by { assert Pad2(1) == [DigitChar(0), DigitChar(1)]; }
    assert Digits(dt, Year) == "2023" by {
      assert Pad2(20) == [DigitChar(2), DigitChar(0)];
      assert Pad2(23) == [DigitChar(2), DigitChar(3)];
    }
  }

  lemma FirstFormat(s: string)
    requires Parse(s, YmdDash).Some?
    ensures ConvertFormatDate(s) == Some(Iso(Parse(s, YmdDash).value))
  {
  }

  lemma SecondFormat(s: string)
    requires Parse(s, YmdDash).None? && Parse(s, DmyDot).Some?
    ensures ConvertFormatDate(s) == Some(Iso(Parse(s, DmyDot).value))
  {
    assert DateFormats[1..][0] == DmyDot;
  }

  lemma ThirdFormat(s: string)
    requires Parse(s, YmdDash).None? && Parse(s, DmyDot).None? && Parse(s, YmdDashHms).Some?
    ensures ConvertFormatDate(s) == Some(Iso(Parse(s, YmdDashHms).value))
  {
    assert DateFormats[1..][1..][0] == YmdDashHms;
  }

  lemma NoFormat(s: string)
    requires Parse(s, YmdDash).None? && Parse(s, DmyDot).None? && Parse(s, YmdDashHms).None?
    ensures ConvertFormatDate(s) == None
  {
  }

  // ---------------------------------------------------------------- check_date_in_begin_file

  datatype FileDateError =
    | DateNotInFileName  // the AssertionError raised when the name has no leading period
    | BadPeriod          // the ValueError of the final strptime

  /** `\d{2,4}.\d{1,2}` matches the first `n + 1 + k` characters of `s` with `n` digits, one character other than a newline, and `k` digits. */
  predicate MatchesAt(s: string, n: int, k: int) {
    2 <= n <= 4 && 1 <= k <= 2 && n + 1 + k <= |s|
    && AllDigits(s[..n]) && s[n] != '\n' && AllDigits(s[n + 1..n + 1 + k])
  }

  /** The match with `n` leading digits and `k` trailing ones is the one the regex engine picks among those with at most `bound` leading digits. */
  ghost predicate Best(s: string, bound: int, n: int, k: int) {
    MatchesAt(s, n, k) && n <= bound &&
    forall n', k' :: n' <= bound && MatchesAt(s, n', k') ==> n' < n || (n' == n && k' <= k)
  }

  /** The regular expression tried with `n` leading digits, then fewer, as backtracking does. */
  function TryDigits(s: string, n: nat): (r: Option<string>)
    requires n <= 4 && n <= |s| && AllDigits(s[..n])
    ensures r.None? <==> forall n', k :: n' <= n ==> !MatchesAt(s, n', k)
    ensures r.Some? ==> exists n', k :: Best(s, n, n', k) && r.value == s[..n' + 1 + k]
    decreases n
  {
    if n < 2 then None
    else if n + 1 < |s| && s[n] != '\n' && IsDigit(s[n + 1]) then
      var k := if n + 2 < |s| && IsDigit(s[n + 2]) then 2 else 1;
      BestHere(s, n, k);
      Some(s[..n + 1 + k])
    else
      assert AllDigits(s[..n - 1]) by { assert s[..n - 1] == s[..n][..n - 1]; }
      NoneHere(s, n);
      var r := TryDigits(s, n - 1);
      if r.Some? then BestWiden(s, n - 1, n, r.value); r else r
  }

  lemma BestHere(s: string, n: nat, k: nat)
    requires 2 <= n <= 4 && n + 1 < |s| && AllDigits(s[..n]) && s[n] != '\n' && IsDigit(s[n + 1])
    requires k == if n + 2 < |s| && IsDigit(s[n + 2]) then 2 else 1
    ensures Best(s, n, n, k)
  {
    assert s[n + 1..n + 1 + k] == if k == 2 then [s[n + 1], s[n + 2]] else [s[n + 1]];
    forall n', k' | n' <= n && MatchesAt(s, n', k') ensures n' < n || (n' == n && k' <= k) {
      if n' == n && k' == 2 { assert s[n + 1..n + 3][1] == s[n + 2]; }
    }
  }

  lemma NoneHere(s: string, n: nat)
    requires 2 <= n <= |s| && !(n + 1 < |s| && s[n] != '\n' && IsDigit(s[n + 1]))
    ensures forall k :: !MatchesAt(s, n, k)
  {
    if n + 2 <= |s| { assert s[n + 1..n + 2][0] == s[n + 1]; }
    if n + 3 <= |s| { assert s[n + 1..n + 3][0] == s[n + 1]; }
  }

  lemma BestWiden(s: string, n: int, w: int, m: string)
    requires w == n + 1 && forall k :: !MatchesAt(s, w, k)
    requires exists n', k :: Best(s, n, n', k) && m == s[..n' + 1 + k]
    ensures exists n', k :: Best(s, w, n', k) && m == s[..n' + 1 + k]
  {
    var n', k :| Best(s, n, n', k) && m == s[..n' + 1 + k];
    assert Best(s, w, n', k);
  }

  /**
   * `re.match(r'\d{2,4}.\d{1,2}', s)`: the matched text, with as many leading digits as
   * possible and then as many trailing digits as possible; `None` when no prefix matches.
   */
  function LeadingMatch(s: string): (r: Option<string>)
    ensures r.None? <==> forall n, k :: !MatchesAt(s, n, k)
    ensures r.Some? ==> exists n, k :: Best(s, 4, n, k) && r.value == s[..n + 1 + k]
  {
    var d := DigitRun(s);
    var n := if d < 4 then d else 4;
    assert s[..n] == s[..d][..n];
    forall n', k | MatchesAt(s, n', k) ensures n' <= n { }
    var r := TryDigits(s, n);
    if r.Some? then BestRaise(s, n, r.value); r else r
  }

  lemma BestRaise(s: string, n: int, m: string)
    requires forall n', k :: MatchesAt(s, n', k) ==> n' <= n
    requires exists n', k :: Best(s, n, n', k) && m == s[..n' + 1 + k]
    ensures exists n', k :: Best(s, 4, n', k) && m == s[..n' + 1 + k]
  {
    var n', k :| Best(s, n, n', k) && m == s[..n' + 1 + k];
    assert Best(s, 4, n', k);
  }

  /**
   * `check_date_in_begin_file`: the period at the start of the file's base name as the ISO
   * date of its first day. The matched text gets ".01" appended and is read as "%Y.%m.%d".
   */
  function CheckDateInBeginFile(path: string): (r: Result<string, FileDateError>)
    ensures r == Failure(DateNotInFileName) <==> forall n, k :: !MatchesAt(BaseName(path), n, k)
    ensures r.Success? ==> |r.value| == 10 && r.value[4] == '-' && r.value[7] == '-'
  {
    match LeadingMatch(BaseName(path))
    case None => Failure(DateNotInFileName)
    case Some(m) =>
      assert exists n, k :: MatchesAt(BaseName(path), n, k);
      match Parse(m + ".01", YmdDot)
      case None => Failure(BadPeriod)
      case Some(dt) => Success(Iso(dt))
  }

  /** Where the month digits of a name of the form `YYYY.M...` end. */
  function MonthEnd(s: string): nat
    requires |s| >= 6
  {
    if |s| > 6 && IsDigit(s[6]) then 7 else 6
  }

  /** The name starts with a four-digit year from 1, a dot, and a month 1-12 of one or two digits. */
  predicate StartsWithPeriod(s: string) {
    && |s| >= 6 && AllDigits(s[..4]) && s[4] == '.' && IsDigit(s[5])
    && AllDigits(s[5..MonthEnd(s)])
    && 1 <= Value(s[..4]) && 1 <= Value(s[5..MonthEnd(s)]) <= 12
  }

  /** A name of the form `YYYY.M...` matches with its four year digits, the dot and all its month digits. */
  lemma PeriodMatch(s: string)
    requires StartsWithPeriod(s)
    ensures LeadingMatch(s) == Some(s[..MonthEnd(s)])
  {
    var e := MonthEnd(s);
    assert s[5..e] == s[4 + 1..4 + 1 + (e - 5)];
    assert MatchesAt(s, 4, e - 5);
    assert LeadingMatch(s).Some?;
    var n, k :| Best(s, 4, n, k) && LeadingMatch(s).value == s[..n + 1 + k];
    assert n == 4;
    assert k == e - 5 by {
      if k == 2 { assert s[5..7][1] == s[6]; }
    }
  }

  /** `datetime.strptime(y + "." + m + ".01", "%Y.%m.%d")` for a four-digit year and a one- or two-digit month. */
  lemma ParsePeriod(y: string, m: string)
    requires |y| == 4 && AllDigits(y) && 1 <= Value(y)
    requires 1 <= |m| <= 2 && AllDigits(m) && 1 <= Value(m) <= 12
    ensures Parse(y + "." + m + ".01", YmdDot) == Some(DateTime(Value(y), Value(m), 1, 0, 0, 0))
  {
    var dt := DateTime(Value(y), Value(m), 1, 0, 0, 0);
    PeriodValid(y, m);
    ParsePeriodFields(y, m);
    ParseValid(y + "." + m + ".01", YmdDot, dt);
  }

  /** The first of a month of a four-digit year is a date `datetime` accepts. */
  lemma PeriodValid(y: string, m: string)
    requires |y| == 4 && AllDigits(y) && 1 <= Value(y) && AllDigits(m) && 1 <= Value(m) <= 12
    ensures ValidDateTime(DateTime(Value(y), Value(m), 1, 0, 0, 0))
  {
    ValueBound(y);
    assert Pow10(4) == 10000;
    assert DaysInMonth(Value(y), Value(m)) >= 28;
  }

  /** The fields of a period string, before the date is checked for validity. */
  lemma ParsePeriodFields(y: string, m: string)
    requires |y| == 4 && AllDigits(y) && 1 <= Value(y)
    requires 1 <= |m| <= 2 && AllDigits(m) && 1 <= Value(m) <= 12
    ensures ParseFrom(y + "." + m + ".01", YmdDot, Defaults) == Some(DateTime(Value(y), Value(m), 1, 0, 0, 0))
  {
    ValueBound(y);
    assert Pow10(4) == 10000;
    var a1 := Put(Defaults, Year, Value(y));
    var tail := m + ['.'] + "01";
    assert y + "." + m + ".01" == y + ['.'] + tail;
    assert YmdDot == [Num(Year), Lit('.')] + ([Num(Month), Lit('.')] + [Num(Day)]);
    ParseFieldDot(y, tail, Year, [Num(Month), Lit('.')] + [Num(Day)], Defaults);
    ParseFieldDot(m, "01", Month, [Num(Day)], a1);
    ParseDayOne(Put(a1, Month, Value(m)));
  }

  /** A field's digits followed by a dot, read by the field's directive and a literal dot. */
  lemma ParseFieldDot(p: string, tail: string, f: Field, fmt: Format, acc: DateTime)
    requires AllDigits(p) && (if f == Year then |p| == 4 else 1 <= |p| <= 2)
    requires Lo(f) <= Value(p) <= Hi(f)
    ensures ParseFrom(p + ['.'] + tail, [Num(f), Lit('.')] + fmt, acc) == ParseFrom(tail, fmt, Put(acc, f, Value(p)))
  {
    assert p + ['.'] + tail == p + (['.'] + tail);
    assert [Num(f), Lit('.')] + fmt == [Num(f)] + ([Lit('.')] + fmt);
    ParseNumStep(p, ['.'] + tail, f, [Lit('.')] + fmt, acc);
    ParseLitStep('.', tail, fmt, Put(acc, f, Value(p)));
  }

  /** "01" read as `%d` is the first of the month. */
  lemma ParseDayOne(acc: DateTime)
    ensures ParseFrom("01", [Num(Day)], acc) == Some(acc.(day := 1))
  {
    assert Value("01") == 1 by { ValuePad2(1); assert Pad2(1) == "01"; }
    assert "01" + [] == "01" && [Num(Day)] + [] == [Num(Day)];
    ParseNumStep("01", [], Day, [], acc);
  }

  /** Two digits are `Pad2` of the number they write. */
  lemma Pad2Value(d: string)
    requires |d| == 2 && AllDigits(d)
    ensures Value(d) == (d[0] as int - '0' as int) * 10 + (d[1] as int - '0' as int)
    ensures Value(d) < 100 && Pad2(Value(d)) == d
  {
    var hi, lo := d[0] as int - '0' as int, d[1] as int - '0' as int;
    assert d == [] + [d[0]] + [d[1]];
    ValueAppendDigit([], d[0]);
    ValueAppendDigit([d[0]], d[1]);
    assert Value(d) == hi * 10 + lo;
    assert (hi * 10 + lo) / 10 == hi && (hi * 10 + lo) % 10 == lo;
  }

  /** Four digits are the year `Digits` writes for the number they write. */
  lemma YearDigits(y: string)
    requires |y| == 4 && AllDigits(y)
    ensures Value(y) <= 9999 && Digits(DateTime(Value(y), 1, 1, 0, 0, 0), Year) == y
  {
    assert y == y[..2] + y[2..];
    ValueAppendPair(y[..2], y[2..]);
    Pad2Value(y[..2]);
    Pad2Value(y[2..]);
    var v := Value(y);
    assert v / 100 == Value(y[..2]) && v % 100 == Value(y[2..]);
  }

  /**
   * A file whose base name starts with a period `YYYY.M` or `YYYY.MM` (year from 1, month
   * 1-12) is dated the first day of that month: the year as written, the month in two digits, day "01".
   */
  lemma CheckDatePeriod(path: string)
    requires StartsWithPeriod(BaseName(path))
    ensures var s := BaseName(path);
      CheckDateInBeginFile(path) == Success(s[..4] + "-" + Pad2(Value(s[5..MonthEnd(s)])) + "-01")
  {
    var s := BaseName(path);
    var e := MonthEnd(s);
    var dt := DateTime(Value(s[..4]), Value(s[5..e]), 1, 0, 0, 0);
    PeriodParsed(s);
    PeriodMatch(s);
    PeriodCase(path, s[..e], dt);
    PeriodText(s[..4], s[5..e], dt);
  }

  /** The matched period with ".01" appended reads as the first of that month. */
  lemma PeriodParsed(s: string)
    requires StartsWithPeriod(s)
    ensures var e := MonthEnd(s);
      Parse(s[..e] + ".01", YmdDot) == Some(DateTime(Value(s[..4]), Value(s[5..e]), 1, 0, 0, 0))
  {
    var e := MonthEnd(s);
    assert s[..e] == s[..4] + "." + s[5..e];
    ParsePeriod(s[..4], s[5..e]);
  }

  /** The pattern matched and "%Y.%m.%d" reads the match with ".01" appended. */
  lemma PeriodCase(path: string, m: string, dt: DateTime)
    requires LeadingMatch(BaseName(path)) == Some(m) && Parse(m + ".01", YmdDot) == Some(dt)
    ensures CheckDateInBeginFile(path) == Success(Iso(dt))
  {
  }

  lemma PeriodText(y: string, m: string, dt: DateTime)
    requires |y| == 4 && AllDigits(y) && AllDigits(m) && ValidDateTime(dt)
    requires dt == DateTime(Value(y), Value(m), 1, 0, 0, 0)
    ensures Iso(dt) == y + "-" + Pad2(Value(m)) + "-01"
  {
    YearDigits(y);
    WrittenIso(dt);
    assert Digits(dt, Year) == y;
    assert Pad2(1) == "01";
  }

  /**
   * The converse of `CheckDatePeriod`: a file is dated only when its base name starts with a
   * period `YYYY.M` or `YYYY.MM` whose year is from 1 and whose month is 1-12.
   */
  lemma CheckDateSucceeds(path: string)
    ensures CheckDateInBeginFile(path).Success? <==> StartsWithPeriod(BaseName(path))
  {
    if StartsWithPeriod(BaseName(path)) {
      CheckDatePeriod(path);
    }
    if CheckDateInBeginFile(path).Success? {
      DatedIsPeriod(path);
    }
  }

  /** A dated file has a period name. */
  lemma DatedIsPeriod(path: string)
    requires CheckDateInBeginFile(path).Success?
    ensures StartsWithPeriod(BaseName(path))
  {
    var s := BaseName(path);
    var m := LeadingMatch(s).value;
    MatchedPeriod(m, Parse(m + ".01", YmdDot).value);
    MatchIsPeriod(s, m);
  }

  /** A match that "%Y.%m.%d" reads once ".01" is appended is a four-digit year from 1, a dot and a month. */
  lemma MatchedPeriod(m: string, dt: DateTime)
    requires Parse(m + ".01", YmdDot) == Some(dt)
    ensures 6 <= |m| <= 7 && AllDigits(m[..4]) && m[4] == '.'
    ensures AllDigits(m[5..]) && 1 <= Value(m[..4]) && 1 <= Value(m[5..]) <= 12
  {
    var t := m + ".01";
    assert t[|t| - 2] == '0';
    PeriodOfParse(t, dt);
    assert t[..4] == m[..4] && t[4] == m[4] && t[5..|t| - 3] == m[5..];
  }

  /** A match that "%Y.%m.%d" reads once ".01" is appended: four year digits from 1, a dot, a month. */
  lemma PeriodOfParse(t: string, dt: DateTime)
    requires |t| >= 3 && t[|t| - 2] == '0' && ValidDateTime(dt)
    requires ParseFrom(t, YmdDot, Defaults) == Some(dt)
    ensures 9 <= |t| <= 10 && AllDigits(t[..4]) && t[4] == '.' && t[|t| - 3] == '.'
    ensures AllDigits(t[5..|t| - 3]) && 1 <= Value(t[..4]) && 1 <= Value(t[5..|t| - 3]) <= 12
  {
    YmdDotTaken(t, YmdDot, Defaults, Some(dt));
    PeriodShape(t, dt.year);
  }

  lemma PeriodShape(t: string, year: int)
    requires |t| >= 3 && t[|t| - 2] == '0' && 1 <= year
    requires |t| >= 5 && AllDigits(t[..4]) && t[4] == '.' && Value(t[..4]) == year
    requires var d := DigitRun(t[5..]);
      && 1 <= d <= 2 && 7 + d <= |t| <= 8 + d && t[5 + d] == '.' && 1 <= Value(t[5..][..d]) <= 12
    ensures 9 <= |t| <= 10 && t[|t| - 3] == '.'
    ensures AllDigits(t[5..|t| - 3]) && 1 <= Value(t[5..|t| - 3]) <= 12
  {
    var d := DigitRun(t[5..]);
    assert |t| == 8 + d;
    assert t[5..][..d] == t[5..|t| - 3];
  }

  /** What "%Y.%m.%d" reads: a year, a dot, the month's digit run, a dot, and one or two more characters. */
  lemma YmdDotTaken(t: string, fmt: Format, acc: DateTime, r: Option<DateTime>)
    requires |fmt| == 5 && fmt[0] == Num(Year) && fmt[1] == Lit('.') && fmt[2] == Num(Month)
    requires fmt[3] == Lit('.') && fmt[4] == Num(Day)
    requires ParseFrom(t, fmt, acc) == r && r.Some?
    ensures |t| >= 5 && AllDigits(t[..4]) && t[4] == '.' && Value(t[..4]) == r.value.year
    ensures var d := DigitRun(t[5..]);
      && 1 <= d <= 2 && 7 + d <= |t| <= 8 + d && t[5 + d] == '.' && 1 <= Value(t[5..][..d]) <= 12
  {
    var a1 := Put(acc, Year, Value(t[..4]));
    FieldDotTaken(t, fmt, acc, r);
    var t2 := t[5..];
    FieldDotTaken(t2, fmt[2..], a1, r);
    var d := DigitRun(t2);
    var a2 := Put(a1, Month, Value(t2[..d]));
    LastFieldTaken(t2[d + 1..], fmt[2..][2..], a2, r);
    assert Get(a2, Year) == Get(a1, Year);
  }

  /** A field other than `%d` followed by a dot reads the digit run, which holds the value, and the dot. */
  lemma FieldDotTaken(t: string, fmt: Format, acc: DateTime, r: Option<DateTime>)
    requires |fmt| >= 2 && fmt[0].Num? && fmt[0].field != Day && fmt[1] == Lit('.')
    requires ParseFrom(t, fmt, acc) == r && r.Some?
    ensures var d, f := DigitRun(t), fmt[0].field;
      && (if f == Year then d == 4 else 1 <= d <= 2) && d < |t| && t[d] == '.'
      && Lo(f) <= Value(t[..d]) <= Hi(f)
      && ParseFrom(t[d + 1..], fmt[2..], Put(acc, f, Value(t[..d]))) == r
  {
    var d := DigitRun(t);
    NumStepTaken(t, fmt, acc);
    LitStepTaken(t[d..], fmt[1..], Put(acc, fmt[0].field, Value(t[..d])));
    assert t[d..][1..] == t[d + 1..] && fmt[1..][1..] == fmt[2..];
  }

  /** A last field reads one or two characters and leaves nothing over. */
  lemma LastFieldTaken(t: string, fmt: Format, acc: DateTime, r: Option<DateTime>)
    requires |fmt| == 1 && fmt[0].Num? && fmt[0].field != Year
    requires ParseFrom(t, fmt, acc) == r && r.Some?
    ensures 1 <= |t| <= 2
    ensures forall g :: g != fmt[0].field ==> Get(r.value, g) == Get(acc, g)
  {
    NumStepTaken(t, fmt, acc);
    assert t[Token(t, fmt[0].field).value.1..] == [];
  }

  /** The matched text of a period name, when it is a period, is the name's whole leading period. */
  lemma MatchIsPeriod(s: string, m: string)
    requires exists n, k :: Best(s, 4, n, k) && m == s[..n + 1 + k]
    requires 6 <= |m| <= 7 && AllDigits(m[..4]) && m[4] == '.'
    requires AllDigits(m[5..]) && 1 <= Value(m[..4]) && 1 <= Value(m[5..]) <= 12
    ensures StartsWithPeriod(s)
  {
    var n, k :| Best(s, 4, n, k) && m == s[..n + 1 + k];
    assert m[5] == s[5];
    assert n == 4;
    assert |m| == 5 + k;
    if |s| > 6 && IsDigit(s[6]) {
      assert s[5..7] == [s[5], s[6]];
      assert MatchesAt(s, 4, 2);
      assert k == 2;
    }
    if k == 2 { assert m[6] == s[6]; }
    assert MonthEnd(s) == |m|;
    assert s[..4] == m[..4] && s[5..MonthEnd(s)] == m[5..];
  }

  /**
   * A name whose year and month are separated by anything but a dot (such as "2023-04") matches
   * the pattern, but "%Y.%m.%d" refuses the match: `ValueError`.
   */
  lemma CheckDateWrongSeparator(dir: string, rest: string)
    requires forall i :: 0 <= i < |rest| ==> rest[i] != '/'
    ensures CheckDateInBeginFile(dir + "/" + ("2023-04" + rest)) == Failure(BadPeriod)
  {
    var s := "2023-04" + rest;
    var path := dir + "/" + s;
    BaseNameAfterSlash(dir, s);
    assert s[4] == '-' && s[..4] == "2023" && s[5..6] == "0";
    assert MatchesAt(s, 4, 1);
    CheckDateSucceeds(path);
  }

  /** Every match of the pattern takes its leading digits from the name's leading digit run. */
  lemma MatchWithinRun(s: string, n: int, k: int)
    requires MatchesAt(s, n, k)
    ensures n <= DigitRun(s)
  {
  }

  /**
   * A name that starts with two or three digits followed by a match is refused by "%Y",
   * which needs four: `ValueError`.
   */
  lemma CheckDateShortYear(path: string, k: int)
    requires var s := BaseName(path); 2 <= DigitRun(s) <= 3 && MatchesAt(s, DigitRun(s), k)
    ensures CheckDateInBeginFile(path) == Failure(BadPeriod)
  {
    var s := BaseName(path);
    assert LeadingMatch(s).Some?;
    ShortYearRefused(s, LeadingMatch(s).value);
    BadPeriodCase(path);
  }

  lemma ShortYearRefused(s: string, m: string)
    requires 2 <= DigitRun(s) <= 3
    requires exists n, k :: Best(s, 4, n, k) && m == s[..n + 1 + k]
    ensures Parse(m + ".01", YmdDot) == None
  {
    var d := DigitRun(s);
    var n, k :| Best(s, 4, n, k) && m == s[..n + 1 + k];
    MatchWithinRun(s, n, k);
    assert n == d;
    var t := m + ".01";
    assert t[..d] == s[..d] && t[d] == s[d];
    DigitRunExact(t, d);
    FirstTokenRefused(t, YmdDot);
  }

  /** The pattern matched, but "%Y.%m.%d" refuses the match with ".01" appended. */
  lemma BadPeriodCase(path: string)
    requires LeadingMatch(BaseName(path)).Some?
    requires Parse(LeadingMatch(BaseName(path)).value + ".01", YmdDot) == None
    ensures CheckDateInBeginFile(path) == Failure(BadPeriod)
  {
  }

  /**
   * A name that starts with six digits or more (such as "20230401") matches with no
   * separator between year and month; "%Y" then finds too many digits: `ValueError`.
   */
  lemma CheckDateLongRun(path: string)
    requires DigitRun(BaseName(path)) >= 6
    ensures CheckDateInBeginFile(path) == Failure(BadPeriod)
  {
    var s := BaseName(path);
    LongRunMatch(s);
    assert LeadingMatch(s).Some?;
    LongRunText(s, LeadingMatch(s).value);
    TooManyYearDigits(LeadingMatch(s).value);
    BadPeriodCase(path);
  }

  lemma LongRunMatch(s: string)
    requires DigitRun(s) >= 6
    ensures MatchesAt(s, 4, 1)
  {
    var d := DigitRun(s);
    forall i | 0 <= i < 6 ensures IsDigit(s[i]) { assert s[i] == s[..d][i]; }
    assert s[5..6] == [s[5]];
  }

  lemma LongRunText(s: string, m: string)
    requires DigitRun(s) >= 6 && MatchesAt(s, 4, 1)
    requires exists n, k :: Best(s, 4, n, k) && m == s[..n + 1 + k]
    ensures AllDigits(m) && |m| >= 6
  {
    var d := DigitRun(s);
    var n, k :| Best(s, 4, n, k) && m == s[..n + 1 + k];
    assert n == 4;
    assert m == s[..d][..5 + k];
  }

  lemma TooManyYearDigits(m: string)
    requires AllDigits(m) && |m| >= 6
    ensures Parse(m + ".01", YmdDot) == None
  {
    DigitRunIs(m, ".01");
    FirstTokenRefused(m + ".01", YmdDot);
  }

  /** A name with fewer than two leading digits carries no date: the script's assertion fails. */
  lemma CheckDateNoLeadingDigits(path: string)
    requires DigitRun(BaseName(path)) < 2
    ensures CheckDateInBeginFile(path) == Failure(DateNotInFileName)
  {
    forall n, k | MatchesAt(BaseName(path), n, k) ensures n <= DigitRun(BaseName(path)) {
      MatchWithinRun(BaseName(path), n, k);
    }
  }

  /** Any file whose name starts "2023.04", then no further digit, is dated 2023-04-01. */
  lemma CheckDateExample(dir: string, rest: string)
    requires forall i :: 0 <= i < |rest| ==> rest[i] != '/'
    requires rest == [] || !IsDigit(rest[0])
    ensures CheckDateInBeginFile(dir + "/" + ("2023.04" + rest)) == Success("2023-04-01")
  {
    var s := "2023.04" + rest;
    BaseNameAfterSlash(dir, s);
    ExampleName(rest);
    CheckDatePeriod(dir + "/" + s);
    ExampleText(s);
  }

  lemma ExampleText(s: string)
    requires |s| >= 7 && s[..4] == "2023" && AllDigits(s[5..7]) && Value(s[5..7]) == 4
    ensures s[..4] + "-" + Pad2(Value(s[5..7])) + "-01" == "2023-04-01"
  {
    assert Pad2(4) == "04";
  }

  lemma ExampleName(rest: string)
    requires rest == [] || !IsDigit(rest[0])
    ensures var s := "2023.04" + rest;
      StartsWithPeriod(s) && MonthEnd(s) == 7 && s[..4] == "2023" && Value(s[5..7]) == 4
  {
    var s := "2023.04" + rest;
    assert s[..4] == "20" + "23" && s[4] == '.' && s[5..7] == "04" && IsDigit(s[6]);
    Pad2Value("20");
    Pad2Value("23");
    Pad2Value("04");
    ValueAppendPair("20", "23");
  }

  /** A name starting "23.04" has a two-digit year, which "%Y" refuses. */
  lemma CheckDateTwoDigitYear(dir: string, rest: string)
    requires forall i :: 0 <= i < |rest| ==> rest[i] != '/'
    ensures CheckDateInBeginFile(dir + "/" + ("23.04" + rest)) == Failure(BadPeriod)
  {
    var s := "23.04" + rest;
    assert forall i :: 0 <= i < |s| ==> s[i] != '/' by {
      forall i | 0 <= i < |s| ensures s[i] != '/' { if i >= 5 { assert s[i] == rest[i - 5]; } }
    }
    TwoDigitYearName(rest);
    ShortYearIn(dir, s);
  }

  lemma ShortYearIn(dir: string, s: string)
    requires forall i :: 0 <= i < |s| ==> s[i] != '/'
    requires DigitRun(s) == 2 && MatchesAt(s, 2, 2)
    ensures CheckDateInBeginFile(dir + "/" + s) == Failure(BadPeriod)
  {
    BaseNameAfterSlash(dir, s);
    CheckDateShortYear(dir + "/" + s, 2);
  }

  lemma TwoDigitYearName(rest: string)
    ensures var s := "23.04" + rest; DigitRun(s) == 2 && MatchesAt(s, 2, 2)
  {
    var s := "23.04" + rest;
    assert s == "23" + s[2..] && s[2] == '.';
    DigitRunIs("23", s[2..]);
    assert s[..2] == "23" && s[3..5] == "04";
  }

  /** A name starting "20230401" has no separator after the year. */
  lemma CheckDateNoSeparator(dir: string, rest: string)
    requires forall i :: 0 <= i < |rest| ==> rest[i] != '/'
    ensures CheckDateInBeginFile(dir + "/" + ("20230401" + rest)) == Failure(BadPeriod)
  {
    var s := "20230401" + rest;
    BaseNameAfterSlash(dir, s);
    assert AllDigits(s[..6]) by { assert s[..6] == "202304"; }
    DigitRunAtLeast(s, 6);
    CheckDateLongRun(dir + "/" + s);
  }

  // ---------------------------------------------------------------- the table stages of main

  /**
   * Which columns survive `rename(columns=headers_eng)` followed by `drop` of the names common
   * to the original and the renamed header lists: exactly those whose header is mapped to a
   * name that is not itself an original header.
   */
  function Survivors(cols: seq<string>): (keep: seq<bool>)
    ensures |keep| == |cols|
    ensures forall j :: 0 <= j < |cols| ==>
      keep[j] == (cols[j] in HeadersEng && HeadersEng[cols[j]] !in cols)
  {
    var renamed := RenameColumns(cols, HeadersEng);
    var keep := KeepMask(renamed, Common(cols));
    assert forall j :: 0 <= j < |cols| ==> renamed[j] in renamed;
    keep
  }

  /** `set(original_columns) & set(renamed_columns)` */
  function Common(cols: seq<string>): set<string> {
    set x | x in cols && x in RenameColumns(cols, HeadersEng)
  }

  /**
   * `df.rename(columns=headers_eng)` then `df.drop(columns=...)` of the common names: the
   * surviving columns in their original order under their English names, with their cells.
   */
  function RenameAndDrop(t: Table): (r: Table)
    requires Rectangular(t)
    ensures Rectangular(r) && |r.rows| == |t.rows|
    ensures |r.columns| == Count(Survivors(t.columns))
    ensures forall p :: 0 <= p < |r.columns| ==>
      var j := KeptIndex(Survivors(t.columns), p);
      && t.columns[j] in HeadersEng
      && r.columns[p] == HeadersEng[t.columns[j]]
      && forall i :: 0 <= i < |t.rows| ==> r.rows[i][p] == t.rows[i][j]
  {
    var renamed := Rename(t, HeadersEng);
    DropColumns(renamed, Common(t.columns))
  }

  /**
   * A name heads a column after rename and drop exactly when it is the English name of an
   * original header and was not an original header itself; in particular no unmapped header survives.
   */
  lemma RenameAndDropColumns(t: Table)
    requires Rectangular(t)
    ensures forall x :: x in RenameAndDrop(t).columns <==>
      x !in t.columns && exists h :: h in t.columns && h in HeadersEng && HeadersEng[h] == x
  {
    assert Rename(t, HeadersEng).columns == RenameColumns(t.columns, HeadersEng);
    forall x
      ensures x in RenameAndDrop(t).columns <==>
        x !in t.columns && exists h :: h in t.columns && h in HeadersEng && HeadersEng[h] == x
    {
      RenamedNewNames(t.columns, HeadersEng, x);
    }
  }

  /** Surviving columns keep their original relative order. */
  lemma RenameAndDropOrder(t: Table, p: nat, q: nat)
    requires Rectangular(t) && p < q < |RenameAndDrop(t).columns|
    ensures KeptIndex(Survivors(t.columns), p) < KeptIndex(Survivors(t.columns), q)
  {
    KeptIndexOrder(Survivors(t.columns), p, q);
  }

  /**
   * `lambda x: self.convert_format_date(str(x))` on one cell: the ISO date, or `None` when
   * no format reads the cell's text.
   */
  function ConvertCell(c: Cell): (r: Cell)
    ensures r.Null? || (r.Str? && |r.s| == 10 && r.s[4] == '-' && r.s[7] == '-')
    ensures r.Str? <==> ConvertFormatDate(Show(c)).Some?
  {
    match ConvertFormatDate(Show(c))
    case None => Null
    case Some(d) => Str(d)
  }

  /** Only text cells can hold a date: integers, NaN and `None` all become `None`. */
  lemma ConvertCellNonText(c: Cell)
    requires !c.Str?
    ensures ConvertCell(c) == Null
  {
    match c
    case Int(i) =>
      if i >= 0 { ConvertAllDigits(Show(c)); } else { ConvertNeedsLeadingDigit(Show(c)); }
    case Missing => ConvertNeedsLeadingDigit("nan");
    case Null => ConvertNeedsLeadingDigit("None");
  }

  /** A date cell in any of the three accepted layouts becomes its ISO date. */
  lemma ConvertCellDates(dt: DateTime, s: string)
    requires ValidDateTime(dt)
    requires s == Iso(dt) || s == Written(dt, DmyDot) || s == Written(dt, YmdDashHms)
    ensures ConvertCell(Str(s)) == Str(Iso(dt))
  {
    if s == Iso(dt) {
      ConvertIso(dt);
    } else if s == Written(dt, DmyDot) {
      ConvertDayFirst(dt);
    } else {
      ConvertDropsTime(dt);
    }
    ConvertCellOf(s, Iso(dt));
  }

  lemma ConvertCellOf(s: string, d: string)
    requires ConvertFormatDate(s) == Some(d)
    ensures ConvertCell(Str(s)) == Str(d)
  {
  }

  const ShipmentDate := "shipment_date"

  /**
   * `df['shipment_date'] = df['shipment_date'].apply(...)` under `suppress(Exception)`: a
   * frame without the column (a `KeyError`) is left as it was.
   */
  function ShipmentDatesConverted(t: Table): (r: Table)
    requires Rectangular(t)
    ensures Rectangular(r)
  {
    match Column(t, ShipmentDate)
    case Failure(_) => t
    case Success(v) => Assign(t, ShipmentDate, seq(|v|, i requires 0 <= i < |v| => ConvertCell(v[i])))
  }

  /**
   * Converting shipment dates rewrites the cells of `shipment_date` and nothing else: the
   * columns stay, every other cell stays.
   */
  lemma ShipmentDatesOnly(t: Table)
    requires Rectangular(t)
    ensures var r := ShipmentDatesConverted(t);
      && r.columns == t.columns && |r.rows| == |t.rows|
      && (forall i, j :: 0 <= i < |t.rows| && 0 <= j < |t.columns| && t.columns[j] != ShipmentDate ==>
            r.rows[i][j] == t.rows[i][j])
      && (forall i, j :: 0 <= i < |t.rows| && 0 <= j < |t.columns| && t.columns[j] == ShipmentDate ==>
            r.rows[i][j] == if Occurrences(t.columns, ShipmentDate) == 1 then ConvertCell(t.rows[i][j]) else t.rows[i][j])
  {
    if Occurrences(t.columns, ShipmentDate) == 1 {
      var j0 := IndexOf(t.columns, ShipmentDate);
      OnlyPosition(t.columns, ShipmentDate, j0);
    }
  }

  /** Without a `shipment_date` column the frame is unchanged. */
  lemma ShipmentDatesAbsent(t: Table)
    requires Rectangular(t) && ShipmentDate !in t.columns
    ensures ShipmentDatesConverted(t) == t
  {
  }

  /** The four columns `add_new_columns` writes, in the order it writes them. */
  const ProvenanceColumns: seq<string> := ["gtd_number", "parsed_on", "original_file_name", "original_file_parsed_on"]

  /**
   * `add_new_columns`: `gtd_number` set to "Нет данных", `parsed_on` to the file's period,
   * `original_file_name` to the input's base name and `original_file_parsed_on` to the time of
   * the run, each broadcast to every row.
   */
  function WithProvenance(t: Table, parsedOn: string, base: string, now: string): (r: Table)
    requires Rectangular(t)
    ensures Rectangular(r) && |r.rows| == |t.rows|
  {
    var n := |t.rows|;
    var t1 := Assign(t, ProvenanceColumns[0], Broadcast(n, Str(NoData)));
    var t2 := Assign(t1, ProvenanceColumns[1], Broadcast(n, Str(parsedOn)));
    var t3 := Assign(t2, ProvenanceColumns[2], Broadcast(n, Str(base)));
    Assign(t3, ProvenanceColumns[3], Broadcast(n, Str(now)))
  }

  /** On a frame without those columns, the four are appended and every row gets the four values. */
  lemma WithProvenanceFresh(t: Table, parsedOn: string, base: string, now: string)
    requires Rectangular(t)
    requires forall x :: x in ProvenanceColumns ==> x !in t.columns
    ensures var r := WithProvenance(t, parsedOn, base, now);
      && r.columns == t.columns + ProvenanceColumns
      && forall i :: 0 <= i < |t.rows| ==>
           r.rows[i] == t.rows[i] + [Str(NoData), Str(parsedOn), Str(base), Str(now)]
  {
    var n := |t.rows|;
    var t1 := Assign(t, ProvenanceColumns[0], Broadcast(n, Str(NoData)));
    AssignNewScalar(t, ProvenanceColumns[0], Str(NoData));
    var t2 := Assign(t1, ProvenanceColumns[1], Broadcast(n, Str(parsedOn)));
    AssignNewScalar(t1, ProvenanceColumns[1], Str(parsedOn));
    var t3 := Assign(t2, ProvenanceColumns[2], Broadcast(n, Str(base)));
    AssignNewScalar(t2, ProvenanceColumns[2], Str(base));
    AssignNewScalar(t3, ProvenanceColumns[3], Str(now));
    assert ProvenanceColumns == [ProvenanceColumns[0]] + [ProvenanceColumns[1]] + [ProvenanceColumns[2]] + [ProvenanceColumns[3]];
    forall i | 0 <= i < n
      ensures WithProvenance(t, parsedOn, base, now).rows[i] == t.rows[i] + [Str(NoData), Str(parsedOn), Str(base), Str(now)]
    {
      assert t.rows[i] + [Str(NoData)] + [Str(parsedOn)] + [Str(base)] + [Str(now)]
        == t.rows[i] + [Str(NoData), Str(parsedOn), Str(base), Str(now)];
    }
  }

  /** Columns other than the four keep their names and cells. */
  lemma WithProvenanceKeeps(t: Table, parsedOn: string, base: string, now: string)
    requires Rectangular(t)
    ensures var r := WithProvenance(t, parsedOn, base, now);
      && |r.columns| >= |t.columns| && r.columns[..|t.columns|] == t.columns
      && forall i, j :: 0 <= i < |t.rows| && 0 <= j < |t.columns| && t.columns[j] !in ProvenanceColumns ==>
           r.rows[i][j] == t.rows[i][j]
  {
    var n := |t.rows|;
    var t1 := Assign(t, ProvenanceColumns[0], Broadcast(n, Str(NoData)));
    var t2 := Assign(t1, ProvenanceColumns[1], Broadcast(n, Str(parsedOn)));
    var t3 := Assign(t2, ProvenanceColumns[2], Broadcast(n, Str(base)));
    var r := WithProvenance(t, parsedOn, base, now);
    AssignKeepsNamed(t, ProvenanceColumns[0], Broadcast(n, Str(NoData)), ProvenanceColumns);
    AssignKeepsNamed(t1, ProvenanceColumns[1], Broadcast(n, Str(parsedOn)), ProvenanceColumns);
    AssignKeepsNamed(t2, ProvenanceColumns[2], Broadcast(n, Str(base)), ProvenanceColumns);
    AssignKeepsNamed(t3, ProvenanceColumns[3], Broadcast(n, Str(now)), ProvenanceColumns);
    KeepsOthersTrans(t, t1, t2, ProvenanceColumns);
    KeepsOthersTrans(t, t2, t3, ProvenanceColumns);
    KeepsOthersTrans(t, t3, r, ProvenanceColumns);
  }

  // ---------------------------------------------------------------- the script object

  /**
   * The whole of `main` after the spreadsheet is read: empty rows dropped, headers renamed and
   * filtered, text stripped, the file's period found, provenance columns added, shipment
   * dates converted, NaN and "NaT" replaced by `None`. The error of the file-name check
   * propagates.
   */
  function Pipeline(loaded: Table, path: string, now: string): (r: Result<Table, FileDateError>)
    requires Rectangular(loaded)
  {
    var t := StripAll(RenameAndDrop(DropEmptyRows(loaded)));
    match CheckDateInBeginFile(path)
    case Failure(e) => Failure(e)
    case Success(parsedOn) =>
      Success(ReplaceNulls(ShipmentDatesConverted(WithProvenance(t, parsedOn, BaseName(path), now))))
  }

  /** `Export`: one input spreadsheet and the folder its JSON goes to. */
  class Export {
    const inputFilePath: string
    const outputFolder: string

    constructor (inputFilePath: string, outputFolder: string)
      ensures this.inputFilePath == inputFilePath && this.outputFolder == outputFolder
    {
      this.inputFilePath := inputFilePath;
      this.outputFolder := outputFolder;
    }

    /** `change_type_and_values`: shipment dates converted in place; a missing column changes nothing. */
    method ChangeTypeAndValues(df: DataFrame)
      requires df.Valid()
      modifies df
      ensures df.Valid() && df.View() == ShipmentDatesConverted(old(df.View()))
    {
      var column := Column(df.View(), ShipmentDate);
      if column.Success? {
        var dates := seq(|column.value|, i requires 0 <= i < |column.value| => ConvertCell(column.value[i]));
        df.Set(ShipmentDate, dates);
      }
    }

    /** `add_new_columns`, with the time of the run passed in as `now`. */
    method AddNewColumns(df: DataFrame, parsedOn: string, now: string)
      requires df.Valid()
      modifies df
      ensures df.Valid() && df.View() == WithProvenance(old(df.View()), parsedOn, BaseName(inputFilePath), now)
    {
      df.SetAll(ProvenanceColumns[0], Str(NoData));
      df.SetAll(ProvenanceColumns[1], Str(parsedOn));
      df.SetAll(ProvenanceColumns[2], Str(BaseName(inputFilePath)));
      df.SetAll(ProvenanceColumns[3], Str(now));
    }

    /** `main`, from the table the spreadsheet reader returns to the table written as JSON records. */
    method Run(loaded: Table, now: string) returns (r: Result<Table, FileDateError>)
      requires Rectangular(loaded)
      ensures r == Pipeline(loaded, inputFilePath, now)
    {
      var t := DropEmptyRows(loaded);
      t := RenameAndDrop(t);
      t := StripAll(t);
      var parsedOn := CheckDateInBeginFile(inputFilePath);
      if parsedOn.Failure? {
        return Failure(parsedOn.error);
      }
      var df := new DataFrame(t);
      AddNewColumns(df, parsedOn.value, now);
      ChangeTypeAndValues(df);
      r := Success(ReplaceNulls(df.View()));
    }
  }

  /** The script produces a table exactly when the file name carries a period, and reports the check's error otherwise. */
  lemma PipelineFailure(loaded: Table, path: string, now: string)
    requires Rectangular(loaded)
    ensures Pipeline(loaded, path, now).Failure? <==> CheckDateInBeginFile(path).Failure?
    ensures Pipeline(loaded, path, now).Failure? ==> Pipeline(loaded, path, now).error == CheckDateInBeginFile(path).error
  {
  }

  /** No column that survives rename and drop is one of the four provenance columns. */
  lemma ProvenanceIsNew(t: Table)
    requires Rectangular(t)
    ensures forall x :: x in ProvenanceColumns ==> x !in StripAll(RenameAndDrop(t)).columns
  {
    RenameAndDropColumns(t);
    forall h | h in HeadersEng ensures HeadersEng[h] !in ProvenanceColumns {
      EnglishNameNotProvenance(h);
    }
  }

  lemma EnglishNameNotProvenance(h: string)
    requires h in HeadersEng
    ensures HeadersEng[h] !in ProvenanceColumns
  {
  }

  /**
   * On success the output has the surviving columns followed by the four provenance columns,
   * one row per non-empty input row, each ending with the placeholder, the period, the file's
   * base name and the time of the run; and no cell is NaN or "NaT".
   */
  lemma PipelineOutput(loaded: Table, path: string, now: string)
    requires Rectangular(loaded) && CheckDateInBeginFile(path).Success? && now != "NaT"
    ensures var t := RenameAndDrop(DropEmptyRows(loaded));
      var r := Pipeline(loaded, path, now).value;
      && Rectangular(r)
      && r.columns == t.columns + ProvenanceColumns
      && |r.rows| == |NonEmptyRows(loaded.rows)|
      && (forall i :: 0 <= i < |r.rows| ==>
            r.rows[i][|t.columns|..] == [Str(NoData), Str(CheckDateInBeginFile(path).value), Str(BaseName(path)), Str(now)])
      && (forall i, j :: 0 <= i < |r.rows| && 0 <= j < |r.rows[i]| ==> !r.rows[i][j].Missing? && r.rows[i][j] != Str("NaT"))
  {
    var t := RenameAndDrop(DropEmptyRows(loaded));
    ProvenanceIsNew(DropEmptyRows(loaded));
    CheckDateNameLength(path);
    LastStages(StripAll(t), CheckDateInBeginFile(path).value, BaseName(path), now);
  }

  /** The stages after the file-name check, on a frame without provenance columns. */
  lemma LastStages(s: Table, parsedOn: string, base: string, now: string)
    requires Rectangular(s) && forall x :: x in ProvenanceColumns ==> x !in s.columns
    requires parsedOn != "NaT" && base != "NaT" && now != "NaT"
    ensures var r := ReplaceNulls(ShipmentDatesConverted(WithProvenance(s, parsedOn, base, now)));
      && Rectangular(r)
      && r.columns == s.columns + ProvenanceColumns
      && |r.rows| == |s.rows|
      && (forall i :: 0 <= i < |r.rows| ==>
            r.rows[i][|s.columns|..] == [Str(NoData), Str(parsedOn), Str(base), Str(now)])
      && (forall i, j :: 0 <= i < |r.rows| && 0 <= j < |r.rows[i]| ==> !r.rows[i][j].Missing? && r.rows[i][j] != Str("NaT"))
  {
    var w := WithProvenance(s, parsedOn, base, now);
    var tail := [Str(NoData), Str(parsedOn), Str(base), Str(now)];
    WithProvenanceFresh(s, parsedOn, base, now);
    forall i | 0 <= i < |w.rows| ensures w.rows[i][|s.columns|..] == tail {
      assert |s.rows[i]| == |s.columns|;
    }
    assert w.columns[|s.columns|..] == ProvenanceColumns;
    assert NoData != "NaT" by { assert NoData[0] != 'N'; }
    StagesAfterProvenance(w, |s.columns|, tail);
  }

  /**
   * The stages after `add_new_columns`, on a frame that ends with the four provenance columns:
   * the columns and the provenance cells stay, and no cell is NaN or "NaT" afterwards.
   */
  lemma StagesAfterProvenance(w: Table, k: nat, tail: seq<Cell>)
    requires Rectangular(w) && |w.columns| == k + 4 && w.columns[k..] == ProvenanceColumns
    requires forall i :: 0 <= i < |w.rows| ==> w.rows[i][k..] == tail
    requires |tail| == 4 && forall q :: 0 <= q < |tail| ==> tail[q].Str? && tail[q].s != "NaT"
    ensures var r := ReplaceNulls(ShipmentDatesConverted(w));
      && Rectangular(r)
      && r.columns == w.columns
      && |r.rows| == |w.rows|
      && (forall i :: 0 <= i < |r.rows| ==> r.rows[i][k..] == tail)
      && (forall i, j :: 0 <= i < |r.rows| && 0 <= j < |r.rows[i]| ==> !r.rows[i][j].Missing? && r.rows[i][j] != Str("NaT"))
  {
    var c := ShipmentDatesConverted(w);
    ConvertedTail(w, k, tail);
    NullsSpareProvenance(c, k, tail);
    ReplaceNullsCells(c);
  }

  /** Converting shipment dates keeps the columns, the row count and the provenance cells of a frame that ends with them. */
  lemma ConvertedTail(w: Table, k: nat, tail: seq<Cell>)
    requires Rectangular(w) && |w.columns| == k + 4 && w.columns[k..] == ProvenanceColumns
    requires forall i :: 0 <= i < |w.rows| ==> w.rows[i][k..] == tail
    ensures var c := ShipmentDatesConverted(w);
      && c.columns == w.columns && |c.rows| == |w.rows|
      && forall i :: 0 <= i < |c.rows| ==> c.rows[i][k..] == tail
  {
    ShipmentDatesOnly(w);
    ProvenanceCellsKept(w, ShipmentDatesConverted(w), k, tail);
  }

  /** Converting shipment dates leaves the provenance cells as they are. */
  lemma ProvenanceCellsKept(w: Table, c: Table, k: nat, tail: seq<Cell>)
    requires Rectangular(w) && |w.columns| == k + 4 && w.columns[k..] == ProvenanceColumns
    requires forall i :: 0 <= i < |w.rows| ==> w.rows[i][k..] == tail
    requires Rectangular(c) && c.columns == w.columns && |c.rows| == |w.rows|
    requires forall i, j :: 0 <= i < |w.rows| && 0 <= j < |w.columns| && w.columns[j] != ShipmentDate ==>
      c.rows[i][j] == w.rows[i][j]
    ensures forall i :: 0 <= i < |c.rows| ==> c.rows[i][k..] == tail
  {
    forall i | 0 <= i < |c.rows| ensures c.rows[i][k..] == tail {
      forall j | k <= j < k + 4 ensures c.rows[i][j] == w.rows[i][j] {
        assert w.columns[j] == ProvenanceColumns[j - k];
      }
      assert c.rows[i][k..] == w.rows[i][k..];
    }
  }

  /** Null replacement leaves the provenance cells as they are: none of them is NaN or "NaT". */
  lemma NullsSpareProvenance(c: Table, k: nat, tail: seq<Cell>)
    requires Rectangular(c) && |c.columns| == k + |tail|
    requires forall i :: 0 <= i < |c.rows| ==> c.rows[i][k..] == tail
    requires forall q :: 0 <= q < |tail| ==> tail[q].Str? && tail[q].s != "NaT"
    ensures forall i :: 0 <= i < |c.rows| ==> ReplaceNulls(c).rows[i][k..] == tail
  {
    var r := ReplaceNulls(c);
    forall i | 0 <= i < |c.rows| ensures r.rows[i][k..] == tail {
      forall j | k <= j < |c.columns| ensures r.rows[i][j] == tail[j - k] {
        assert c.rows[i][j] == c.rows[i][k..][j - k];
      }
    }
  }

  /** A name that passes the file-name check is at least four characters long. */
  lemma CheckDateNameLength(path: string)
    requires CheckDateInBeginFile(path).Success?
    ensures |BaseName(path)| >= 6
  {
    CheckDateSucceeds(path);
  }
}
