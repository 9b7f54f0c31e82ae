/**
 * `datetime.strptime` restricted to the directives the scripts use (%Y %m %d %H %M %S,
 * literal characters, and whitespace, which CPython's pattern compiler turns into `\s+`),
 * and `str(date)`, which writes a date as ISO `YYYY-MM-DD`.
 *
 * CPython compiles a format into a regular expression and rejects the text when the
 * expression does not match it from the start or leaves characters over ("unconverted
 * data remains"); it then builds a `datetime`, which rejects an impossible calendar date.
 * Both failures are `ValueError`, which is `None` here.
 */
module Strptime {
  import opened Wrappers
  import opened PyText

  datatype Field = Year | Month | Day | Hour | Minute | Second

  /** One element of a compiled format: a literal character, a whitespace run, or a field. */
  datatype Directive = Lit(c: char) | Blank | Num(field: Field)

  type Format = seq<Directive>

  datatype DateTime = DateTime(year: int, month: int, day: int, hour: int, minute: int, second: int)

  /** The values strptime assumes for fields a format does not mention. */
  const Defaults := DateTime(1900, 1, 1, 0, 0, 0)

  /** "%Y-%m-%d", also the layout `str(date)` writes. */
  const YmdDash: Format := [Num(Year), Lit('-'), Num(Month), Lit('-'), Num(Day)]

  /** "%d.%m.%Y" */
  const DmyDot: Format := [Num(Day), Lit('.'), Num(Month), Lit('.'), Num(Year)]

  /** "%Y.%m.%d" */
  const YmdDot: Format := [Num(Year), Lit('.'), Num(Month), Lit('.'), Num(Day)]

  /** " %H:%M:%S" and " %H:%M", the time parts that follow a date. */
  const Hms: Format := [Blank, Num(Hour), Lit(':'), Num(Minute), Lit(':'), Num(Second)]
  const Hm: Format := [Blank, Num(Hour), Lit(':'), Num(Minute)]

  /** "%Y-%m-%d %H:%M:%S", "%d.%m.%Y %H:%M:%S" and "%d.%m.%Y %H:%M" */
  const YmdDashHms: Format := YmdDash + Hms
  const DmyDotHms: Format := DmyDot + Hms
  const DmyDotHm: Format := DmyDot + Hm

  function Get(dt: DateTime, f: Field): int {
    match f
    case Year => dt.year
    case Month => dt.month
    case Day => dt.day
    case Hour => dt.hour
    case Minute => dt.minute
    case Second => dt.second
  }

  function Put(dt: DateTime, f: Field, v: int): (r: DateTime)
    ensures Get(r, f) == v
    ensures forall g :: g != f ==> Get(r, g) == Get(dt, g)
  {
    match f
    case Year => dt.(year := v)
    case Month => dt.(month := v)
    case Day => dt.(day := v)
    case Hour => dt.(hour := v)
    case Minute => dt.(minute := v)
    case Second => dt.(second := v)
  }

  /** Smallest value the field's pattern accepts. */
  function Lo(f: Field): int {
    match f
    case Year => 0
    case Month => 1
    case Day => 1
    case Hour => 0
    case Minute => 0
    case Second => 0
  }

  /** Largest value the field's pattern accepts (the %S pattern admits leap seconds 60 and 61). */
  function Hi(f: Field): int {
    match f
    case Year => 9999
    case Month => 12
    case Day => 31
    case Hour => 23
    case Minute => 59
    case Second => 61
  }

  function Pow10(n: nat): (p: nat)
    ensures p >= 1
  {
    if n == 0 then 1 else 10 * Pow10(n - 1)
  }

  /** A string of `n` digits writes a number below 10^n. */
  lemma {:induction false} ValueBound(s: string)
    requires AllDigits(s)
    ensures Value(s) < Pow10(|s|)
    decreases |s|
  {
    if s != [] {
      ValueBound(s[..|s| - 1]);
    }
  }

  /**
   * Reads field `f` at the start of `s`: its value and the number of characters it spans.
   * %Y takes exactly four digits; the others take one or two, and %d also takes a space
   * followed by one digit 1-9. Because every field in the formats used here is followed by
   * a non-digit directive or by the end, the field spans exactly the leading digit run.
   */
  function Token(s: string, f: Field): (r: Option<(int, nat)>)
    ensures r.Some? ==> 0 < r.value.1 <= |s| && Lo(f) <= r.value.0 <= Hi(f)
  {
    if f == Day && |s| >= 2 && s[0] == ' ' && '1' <= s[1] <= '9' then
      Some((s[1] as int - '0' as int, 2))
    else
      var n := DigitRun(s);
      if (if f == Year then n == 4 else 1 <= n <= 2) && Lo(f) <= Value(s[..n]) <= Hi(f) then
        Some((Value(s[..n]), n))
      else None
  }

  /** Matches `s` against `fmt` from the start, storing field values into `acc`; the whole of `s` must be used. */
  function ParseFrom(s: string, fmt: Format, acc: DateTime): Option<DateTime>
    decreases |fmt|
  {
    if fmt == [] then
      if s == [] then Some(acc) else None
    else
      match fmt[0]
      case Lit(c) =>
        if s != [] && s[0] == c then ParseFrom(s[1..], fmt[1..], acc) else None
      case Blank =>
        var n := SpaceRun(s);
        if n == 0 then None else ParseFrom(s[n..], fmt[1..], acc)
      case Num(f) =>
        match Token(s, f)
        case None => None
        case Some(t) => ParseFrom(s[t.1..], fmt[1..], Put(acc, f, t.0))
  }

  predicate IsLeap(y: int) { y % 4 == 0 && (y % 100 != 0 || y % 400 == 0) }

  function DaysInMonth(y: int, m: int): int
    requires 1 <= m <= 12
  {
    if m == 2 then (if IsLeap(y) then 29 else 28)
    else if m == 4 || m == 6 || m == 9 || m == 11 then 30
    else 31
  }

  /** What the `datetime` constructor accepts. */
  predicate ValidDateTime(dt: DateTime) {
    && 1 <= dt.year <= 9999
    && 1 <= dt.month <= 12
    && 1 <= dt.day <= DaysInMonth(dt.year, dt.month)
    && 0 <= dt.hour <= 23
    && 0 <= dt.minute <= 59
    && 0 <= dt.second <= 59
  }

  /** `datetime.strptime(s, fmt)`, with `None` for `ValueError`. */
  function Parse(s: string, fmt: Format): (r: Option<DateTime>)
    ensures r.Some? ==> ValidDateTime(r.value)
  {
    match ParseFrom(s, fmt, Defaults)
    case None => None
    case Some(dt) => if ValidDateTime(dt) then Some(dt) else None
  }

  /** Text whose fields are read into a valid date-time parses to it. */
  lemma ParseValid(s: string, fmt: Format, dt: DateTime)
    requires ParseFrom(s, fmt, Defaults) == Some(dt) && ValidDateTime(dt)
    ensures Parse(s, fmt) == Some(dt)
  {
  }

  /** Text whose fields are read into an invalid date-time is refused. */
  lemma ParseInvalid(s: string, fmt: Format, dt: DateTime)
    requires ParseFrom(s, fmt, Defaults) == Some(dt) && !ValidDateTime(dt)
    ensures Parse(s, fmt) == None
  {
  }

  /**
   * The loop of `convert_format_date`: the result of the first format that accepts `s`,
   * or `None` when none does.
   */
  function FirstParse(s: string, formats: seq<Format>): (r: Option<DateTime>)
    ensures r.None? <==> forall i :: 0 <= i < |formats| ==> Parse(s, formats[i]).None?
    ensures r.Some? ==>
      exists i :: 0 <= i < |formats| && Parse(s, formats[i]) == r
        && forall j :: 0 <= j < i ==> Parse(s, formats[j]).None?
  {
    if formats == [] then None
    else if Parse(s, formats[0]).Some? then Parse(s, formats[0])
    else
      var r := FirstParse(s, formats[1..]);
      FirstParseShift(s, formats, r);
      r
  }

  /** A result of the formats after the first is the first result of all of them when the first fails. */
  lemma FirstParseShift(s: string, formats: seq<Format>, r: Option<DateTime>)
    requires formats != [] && Parse(s, formats[0]).None?
    requires r.None? <==> forall i :: 0 <= i < |formats[1..]| ==> Parse(s, formats[1..][i]).None?
    requires r.Some? ==>
      exists i :: 0 <= i < |formats[1..]| && Parse(s, formats[1..][i]) == r
        && forall j :: 0 <= j < i ==> Parse(s, formats[1..][j]).None?
    ensures r.None? <==> forall i :: 0 <= i < |formats| ==> Parse(s, formats[i]).None?
    ensures r.Some? ==>
      exists i :: 0 <= i < |formats| && Parse(s, formats[i]) == r
        && forall j :: 0 <= j < i ==> Parse(s, formats[j]).None?
  {
    if r.Some? {
      var i :| 0 <= i < |formats[1..]| && Parse(s, formats[1..][i]) == r
        && forall j :: 0 <= j < i ==> Parse(s, formats[1..][j]).None?;
      forall j | 0 <= j < i + 1 ensures Parse(s, formats[j]).None? {
        if j > 0 { assert formats[j] == formats[1..][j - 1]; }
      }
      assert Parse(s, formats[i + 1]) == r;
    } else {
      forall j | 0 <= j < |formats| ensures Parse(s, formats[j]).None? {
        if j > 0 { assert formats[j] == formats[1..][j - 1]; }
      }
    }
  }

  /** The field `f` of `dt` as its zero-padded digits. */
  function Digits(dt: DateTime, f: Field): (r: string)
    requires Lo(f) <= Get(dt, f) <= Hi(f)
    ensures AllDigits(r) && |r| == (if f == Year then 4 else 2)
  {
    var v := Get(dt, f);
    if f == Year then Pad2(v / 100) + Pad2(v % 100) else Pad2(v)
  }

  function Pad2(v: nat): (r: string)
    requires v < 100
    ensures AllDigits(r) && |r| == 2
  {
    [DigitChar(v / 10), DigitChar(v % 10)]
  }

  /** The fields of `dt` the format mentions lie in their pattern ranges. */
  predicate InRange(dt: DateTime, fmt: Format) {
    forall k :: 0 <= k < |fmt| && fmt[k].Num? ==> Lo(fmt[k].field) <= Get(dt, fmt[k].field) <= Hi(fmt[k].field)
  }

  /** The text one directive writes for `dt`. */
  function Piece(dt: DateTime, d: Directive): string
    requires d.Num? ==> Lo(d.field) <= Get(dt, d.field) <= Hi(d.field)
  {
    match d
    case Lit(c) => [c]
    case Blank => " "
    case Num(f) => Digits(dt, f)
  }

  /** `dt` written in `fmt` with zero-padded fields and one space per whitespace run. */
  function Written(dt: DateTime, fmt: Format): string
    requires InRange(dt, fmt)
  {
    if fmt == [] then [] else Piece(dt, fmt[0]) + Written(dt, fmt[1..])
  }

  /** `str(d.date())`: the ISO calendar date of a valid date-time. */
  function Iso(dt: DateTime): (r: string)
    requires ValidDateTime(dt)
    ensures |r| == 10 && r[4] == '-' && r[7] == '-'
    ensures AllDigits(r[..4]) && AllDigits(r[5..7]) && AllDigits(r[8..])
  {
    var r := Written(dt, YmdDash);
    WrittenIso(dt);
    assert r[..4] == Digits(dt, Year) && r[5..7] == Digits(dt, Month) && r[8..] == Digits(dt, Day);
    r
  }

  lemma WrittenIso(dt: DateTime)
    requires ValidDateTime(dt)
    ensures InRange(dt, YmdDash)
    ensures Written(dt, YmdDash) == Digits(dt, Year) + "-" + Digits(dt, Month) + "-" + Digits(dt, Day)
  {
    var f := YmdDash;
    assert Written(dt, f[4..]) == Digits(dt, Day);
    assert Written(dt, f[3..]) == "-" + Digits(dt, Day);
    assert Written(dt, f[2..]) == Digits(dt, Month) + "-" + Digits(dt, Day);
    assert Written(dt, f[1..]) == "-" + Digits(dt, Month) + "-" + Digits(dt, Day);
  }

  /** Writing a format made of two parts writes the parts one after the other. */
  lemma {:induction false} WrittenAppend(dt: DateTime, a: Format, b: Format)
    requires InRange(dt, a + b)
    ensures InRange(dt, a) && InRange(dt, b)
    ensures Written(dt, a + b) == Written(dt, a) + Written(dt, b)
    decreases |a|
  {
    assert InRange(dt, a) by {
      forall k | 0 <= k < |a| && a[k].Num? ensures Lo(a[k].field) <= Get(dt, a[k].field) <= Hi(a[k].field) {
        assert (a + b)[k] == a[k];
      }
    }
    assert InRange(dt, b) by {
      forall k | 0 <= k < |b| && b[k].Num? ensures Lo(b[k].field) <= Get(dt, b[k].field) <= Hi(b[k].field) {
        assert (a + b)[|a| + k] == b[k];
      }
    }
    if a == [] {
      assert a + b == b;
    } else {
      assert (a + b)[1..] == a[1..] + b;
      WrittenAppend(dt, a[1..], b);
    }
  }

  lemma ValueAppendDigit(a: string, c: char)
    requires AllDigits(a) && IsDigit(c)
    ensures AllDigits(a + [c]) && Value(a + [c]) == Value(a) * 10 + (c as int - '0' as int)
  {
    assert (a + [c])[..|a|] == a;
  }

  lemma ValueAppendPair(a: string, b: string)
    requires AllDigits(a) && AllDigits(b) && |b| == 2
    ensures AllDigits(a + b) && Value(a + b) == Value(a) * 100 + Value(b)
  {
    var a1 := a + [b[0]];
    assert a + b == a1 + [b[1]];
    ValueAppendDigit(a, b[0]);
    ValueAppendDigit(a1, b[1]);
    assert b == [b[0]] + [b[1]];
    assert [b[0]] == [] + [b[0]];
    ValueAppendDigit([], b[0]);
    ValueAppendDigit([b[0]], b[1]);
  }

  /** The digits written for a field read back as its value. */
  lemma ValueDigits(dt: DateTime, f: Field)
    requires Lo(f) <= Get(dt, f) <= Hi(f)
    ensures Value(Digits(dt, f)) == Get(dt, f)
  {
    var v := Get(dt, f);
    if f == Year {
      ValueAppendPair(Pad2(v / 100), Pad2(v % 100));
      ValuePad2(v / 100);
      ValuePad2(v % 100);
    } else {
      ValuePad2(v);
    }
  }

  lemma ValuePad2(v: nat)
    requires v < 100
    ensures Value(Pad2(v)) == v
  {
    ValueAppendPair([], Pad2(v));
    assert [] + Pad2(v) == Pad2(v);
    ValueAppendDigit([], Pad2(v)[0]);
    ValueAppendDigit([Pad2(v)[0]], Pad2(v)[1]);
    assert Pad2(v) == [Pad2(v)[0]] + [Pad2(v)[1]];
  }

  /**
   * The formats used here: a literal is neither a digit nor whitespace, no two fields are
   * adjacent and no two whitespace runs are adjacent.
   */
  predicate Separated(fmt: Format) {
    forall k :: 0 <= k < |fmt| ==>
      && (fmt[k].Lit? ==> !IsDigit(fmt[k].c) && !IsSpace(fmt[k].c))
      && (k + 1 < |fmt| && fmt[k].Num? ==> !fmt[k + 1].Num?)
      && (k + 1 < |fmt| && fmt[k].Blank? ==> !fmt[k + 1].Blank?)
  }

  /** `acc` after reading directive `d` written for `dt`. */
  function Step(acc: DateTime, dt: DateTime, d: Directive): DateTime {
    if d.Num? then Put(acc, d.field, Get(dt, d.field)) else acc
  }

  /** `acc` with every field that `fmt` mentions taken from `dt`. */
  function Fill(acc: DateTime, dt: DateTime, fmt: Format): DateTime
    decreases |fmt|
  {
    if fmt == [] then acc else Fill(Step(acc, dt, fmt[0]), dt, fmt[1..])
  }

  /** `rest` may follow text written in `fmt` without running into its last directive. */
  predicate FitsAfter(fmt: Format, rest: string) {
    fmt != [] ==>
      && (fmt[|fmt| - 1].Num? ==> rest == [] || !IsDigit(rest[0]))
      && (fmt[|fmt| - 1].Blank? ==> rest == [] || !IsSpace(rest[0]))
  }

  lemma WrittenHead(dt: DateTime, fmt: Format)
    requires fmt != [] && InRange(dt, fmt)
    ensures Written(dt, fmt) != []
    ensures fmt[0].Lit? ==> Written(dt, fmt)[0] == fmt[0].c
    ensures fmt[0].Blank? ==> Written(dt, fmt)[0] == ' '
    ensures fmt[0].Num? ==> IsDigit(Written(dt, fmt)[0])
  {
    assert Written(dt, fmt)[0] == Piece(dt, fmt[0])[0];
  }

  /**
   * Round trip: text written in a separated format, followed by text that does not run into
   * it, is read back field by field, and matching goes on with the rest of the format.
   */
  lemma {:induction false} ParseWritten(dt: DateTime, fmt: Format, rest: string, more: Format, acc: DateTime)
    requires Separated(fmt) && InRange(dt, fmt) && FitsAfter(fmt, rest)
    ensures ParseFrom(Written(dt, fmt) + rest, fmt + more, acc) == ParseFrom(rest, more, Fill(acc, dt, fmt))
    decreases |fmt|
  {
    if fmt == [] {
      assert Written(dt, fmt) + rest == rest && fmt + more == more;
    } else {
      var tail := Written(dt, fmt[1..]) + rest;
      var d := fmt[0];
      assert fmt + more == [d] + (fmt[1..] + more);
      assert Written(dt, fmt) + rest == Piece(dt, d) + tail;
      NextFits(dt, fmt, rest);
      ParseStep(dt, d, tail, fmt[1..] + more, acc);
      ParseWritten(dt, fmt[1..], rest, more, Step(acc, dt, d));
    }
  }

  /** After the first directive's text comes text that does not run into it. */
  lemma NextFits(dt: DateTime, fmt: Format, rest: string)
    requires fmt != [] && Separated(fmt) && InRange(dt, fmt) && FitsAfter(fmt, rest)
    ensures Separated(fmt[1..]) && InRange(dt, fmt[1..]) && FitsAfter(fmt[1..], rest)
    ensures fmt[0].Num? ==> Lo(fmt[0].field) <= Get(dt, fmt[0].field) <= Hi(fmt[0].field)
    ensures var tail := Written(dt, fmt[1..]) + rest;
      && (fmt[0].Num? ==> tail == [] || !IsDigit(tail[0]))
      && (fmt[0].Blank? ==> tail == [] || !IsSpace(tail[0]))
  {
    TailRange(dt, fmt);
    var w := Written(dt, fmt[1..]);
    if fmt[1..] != [] {
      WrittenHead(dt, fmt[1..]);
      assert (w + rest)[0] == w[0];
      assert fmt[1..][0] == fmt[1];
      assert fmt[1..][|fmt[1..]| - 1] == fmt[|fmt| - 1];
    } else {
      assert w + rest == rest;
    }
  }

  lemma TailRange(dt: DateTime, fmt: Format)
    requires fmt != [] && Separated(fmt) && InRange(dt, fmt)
    ensures Separated(fmt[1..]) && InRange(dt, fmt[1..])
    ensures fmt[0].Num? ==> Lo(fmt[0].field) <= Get(dt, fmt[0].field) <= Hi(fmt[0].field)
    ensures fmt[0].Lit? ==> !IsDigit(fmt[0].c) && !IsSpace(fmt[0].c)
  {
    forall k | 0 <= k < |fmt[1..]| ensures fmt[1..][k] == fmt[k + 1] { }
  }

  /** Reading one directive's text leaves the text after it. */
  lemma ParseStep(dt: DateTime, d: Directive, tail: string, fmt: Format, acc: DateTime)
    requires d.Num? ==> Lo(d.field) <= Get(dt, d.field) <= Hi(d.field)
    requires d.Num? ==> tail == [] || !IsDigit(tail[0])
    requires d.Blank? ==> tail == [] || !IsSpace(tail[0])
    ensures ParseFrom(Piece(dt, d) + tail, [d] + fmt, acc) == ParseFrom(tail, fmt, Step(acc, dt, d))
  {
    var s := Piece(dt, d) + tail;
    assert ([d] + fmt)[0] == d && ([d] + fmt)[1..] == fmt;
    match d
    case Lit(c) =>
      assert s[1..] == tail;
    case Blank =>
      SpaceRunIs(" ", tail);
      assert s[1..] == tail;
    case Num(f) =>
      var p := Digits(dt, f);
      DigitRunIs(p, tail);
      assert s[..|p|] == p && s[|p|..] == tail;
      ValueDigits(dt, f);
      assert s[0] == p[0];
  }

  lemma DigitRunIs(digits: string, rest: string)
    requires AllDigits(digits) && (rest == [] || !IsDigit(rest[0]))
    ensures DigitRun(digits + rest) == |digits|
  {
    var s := digits + rest;
    assert AllDigits(s[..|digits|]) by { assert s[..|digits|] == digits; }
    assert |digits| < |s| ==> !IsDigit(s[|digits|]);
    DigitRunExact(s, |digits|);
  }

  lemma {:induction false} DigitRunExact(s: string, k: nat)
    requires k <= |s| && AllDigits(s[..k]) && (k < |s| ==> !IsDigit(s[k]))
    ensures DigitRun(s) == k
    decreases k
  {
    if k > 0 {
      assert IsDigit(s[..k][0]);
      assert s[1..][..k - 1] == s[1..k];
      DigitRunExact(s[1..], k - 1);
    }
  }

  /** Text written in a separated format reads back, the fields it mentions taken from `dt`. */
  lemma RoundTrip(dt: DateTime, fmt: Format)
    requires Separated(fmt) && InRange(dt, fmt)
    ensures ParseFrom(Written(dt, fmt), fmt, Defaults) == Some(Fill(Defaults, dt, fmt))
  {
    ParseWritten(dt, fmt, [], [], Defaults);
    assert Written(dt, fmt) + [] == Written(dt, fmt) && fmt + [] == fmt;
  }

  /** Reading text written in `fmt` takes from `dt` exactly the fields `fmt` mentions. */
  lemma {:induction false} FillFields(acc: DateTime, dt: DateTime, fmt: Format, f: Field)
    ensures Get(Fill(acc, dt, fmt), f) == if Num(f) in fmt then Get(dt, f) else Get(acc, f)
    decreases |fmt|
  {
    if fmt != [] {
      FillFields(Step(acc, dt, fmt[0]), dt, fmt[1..], f);
      assert fmt == [fmt[0]] + fmt[1..];
    }
  }

  lemma SameFields(a: DateTime, b: DateTime)
    requires forall f :: Get(a, f) == Get(b, f)
    ensures a == b
  {
    assert Get(a, Year) == Get(b, Year) && Get(a, Month) == Get(b, Month) && Get(a, Day) == Get(b, Day);
    assert Get(a, Hour) == Get(b, Hour) && Get(a, Minute) == Get(b, Minute) && Get(a, Second) == Get(b, Second);
  }

  /** The date-time read from text written in a format with all six fields is the written one. */
  lemma FillAll(dt: DateTime, fmt: Format)
    requires Num(Year) in fmt && Num(Month) in fmt && Num(Day) in fmt
    requires Num(Hour) in fmt && Num(Minute) in fmt && Num(Second) in fmt
    ensures Fill(Defaults, dt, fmt) == dt
  {
    forall f ensures Get(Fill(Defaults, dt, fmt), f) == Get(dt, f) { FillFields(Defaults, dt, fmt, f); }
    SameFields(Fill(Defaults, dt, fmt), dt);
  }

  /** The date-time read from text written in a date-only format is the written date at midnight. */
  lemma FillDate(dt: DateTime, fmt: Format)
    requires Num(Year) in fmt && Num(Month) in fmt && Num(Day) in fmt
    requires Num(Hour) !in fmt && Num(Minute) !in fmt && Num(Second) !in fmt
    ensures Fill(Defaults, dt, fmt) == DateTime(dt.year, dt.month, dt.day, 0, 0, 0)
  {
    var d := DateTime(dt.year, dt.month, dt.day, 0, 0, 0);
    forall f ensures Get(Fill(Defaults, dt, fmt), f) == Get(d, f) { FillFields(Defaults, dt, fmt, f); }
    SameFields(Fill(Defaults, dt, fmt), d);
  }

  /** `str(d.date())` depends on the calendar date only. */
  lemma IsoOfDate(a: DateTime, b: DateTime)
    requires ValidDateTime(a) && ValidDateTime(b)
    requires a.year == b.year && a.month == b.month && a.day == b.day
    ensures Iso(a) == Iso(b)
  {
    WrittenIso(a);
    WrittenIso(b);
  }

  /** Text written in a format that starts with a field starts with that field's digits and no more. */
  lemma LeadingDigits(dt: DateTime, fmt: Format)
    requires Separated(fmt) && InRange(dt, fmt) && fmt != [] && fmt[0].Num?
    ensures DigitRun(Written(dt, fmt)) == |Digits(dt, fmt[0].field)|
    ensures Written(dt, fmt)[0] != ' '
  {
    TailRange(dt, fmt);
    var w := Written(dt, fmt[1..]);
    if fmt[1..] != [] {
      WrittenHead(dt, fmt[1..]);
      assert fmt[1..][0] == fmt[1];
    }
    DigitRunIs(Digits(dt, fmt[0].field), w);
  }

  /** A date-time that reads back from its text in `fmt` is what `Parse` returns for it. */
  lemma ParseWrittenDate(dt: DateTime, fmt: Format)
    requires Separated(fmt) && InRange(dt, fmt) && ValidDateTime(dt)
    requires Num(Year) in fmt && Num(Month) in fmt && Num(Day) in fmt
    requires Num(Hour) !in fmt && Num(Minute) !in fmt && Num(Second) !in fmt
    ensures Parse(Written(dt, fmt), fmt) == Some(DateTime(dt.year, dt.month, dt.day, 0, 0, 0))
  {
    RoundTrip(dt, fmt);
    FillDate(dt, fmt);
  }

  /** Text written in `fmt` followed by more text is refused by `fmt`: unconverted data remains. */
  lemma ParseLeftover(dt: DateTime, fmt: Format, rest: string)
    requires Separated(fmt) && InRange(dt, fmt) && FitsAfter(fmt, rest) && rest != []
    ensures Parse(Written(dt, fmt) + rest, fmt) == None
  {
    ParseWritten(dt, fmt, rest, [], Defaults);
    assert fmt + [] == fmt;
  }

  /** Text written in `fmt` is refused by a longer format that goes on with a literal. */
  lemma ParseTooShort(dt: DateTime, fmt: Format, c: char, more: Format)
    requires Separated(fmt) && InRange(dt, fmt)
    ensures Parse(Written(dt, fmt), fmt + [Lit(c)] + more) == None
  {
    ParseWritten(dt, fmt, [], [Lit(c)] + more, Defaults);
    assert Written(dt, fmt) + [] == Written(dt, fmt);
    assert fmt + [Lit(c)] + more == fmt + ([Lit(c)] + more);
  }

  /** A field directive takes a run of digits of the right width whose value lies in range. */
  lemma ParseNumStep(p: string, tail: string, f: Field, fmt: Format, acc: DateTime)
    requires AllDigits(p) && (if f == Year then |p| == 4 else 1 <= |p| <= 2)
    requires Lo(f) <= Value(p) <= Hi(f)
    requires tail == [] || !IsDigit(tail[0])
    ensures ParseFrom(p + tail, [Num(f)] + fmt, acc) == ParseFrom(tail, fmt, Put(acc, f, Value(p)))
  {
    var s := p + tail;
    assert ([Num(f)] + fmt)[0] == Num(f) && ([Num(f)] + fmt)[1..] == fmt;
    DigitRunIs(p, tail);
    assert s[..|p|] == p && s[|p|..] == tail && s[0] == p[0];
  }

  /** A literal directive takes that one character. */
  lemma ParseLitStep(c: char, tail: string, fmt: Format, acc: DateTime)
    ensures ParseFrom([c] + tail, [Lit(c)] + fmt, acc) == ParseFrom(tail, fmt, acc)
  {
    assert ([Lit(c)] + fmt)[0] == Lit(c) && ([Lit(c)] + fmt)[1..] == fmt;
    assert ([c] + tail)[1..] == tail;
  }

  /** `%d` reads a space followed by one digit 1-9 as that day. */
  lemma ParseSpacedDayStep(c: char, tail: string, fmt: Format, acc: DateTime)
    requires '1' <= c <= '9'
    ensures ParseFrom([' ', c] + tail, [Num(Day)] + fmt, acc) == ParseFrom(tail, fmt, Put(acc, Day, c as int - '0' as int))
  {
    var s := [' ', c] + tail;
    assert ([Num(Day)] + fmt)[0] == Num(Day) && ([Num(Day)] + fmt)[1..] == fmt;
    assert s[0] == ' ' && s[1] == c && s[2..] == tail;
  }

  /** A field directive that succeeds has read a token and continues after it. */
  lemma NumStepTaken(s: string, fmt: Format, acc: DateTime)
    requires fmt != [] && fmt[0].Num? && ParseFrom(s, fmt, acc).Some?
    ensures Token(s, fmt[0].field).Some?
    ensures var t := Token(s, fmt[0].field).value;
      ParseFrom(s[t.1..], fmt[1..], Put(acc, fmt[0].field, t.0)) == ParseFrom(s, fmt, acc)
  {
  }

  /** A literal directive that succeeds has found its character and continues after it. */
  lemma LitStepTaken(s: string, fmt: Format, acc: DateTime)
    requires fmt != [] && fmt[0].Lit? && ParseFrom(s, fmt, acc).Some?
    ensures s != [] && s[0] == fmt[0].c
    ensures ParseFrom(s[1..], fmt[1..], acc) == ParseFrom(s, fmt, acc)
  {
  }

  /** A format whose first field finds no acceptable digits at the start of `s` refuses `s`. */
  lemma FirstTokenRefused(s: string, fmt: Format)
    requires fmt != [] && fmt[0].Num?
    requires fmt[0].field == Day ==> s == [] || s[0] != ' '
    requires if fmt[0].field == Year then DigitRun(s) != 4 else DigitRun(s) == 0 || DigitRun(s) > 2
    ensures Parse(s, fmt) == None
  {
  }

  /** A string of digits alone is refused by a format whose first field is followed by a literal. */
  lemma AllDigitsRefused(s: string, fmt: Format)
    requires AllDigits(s)
    requires |fmt| >= 2 && fmt[0].Num? && fmt[1].Lit?
    ensures Parse(s, fmt) == None
  {
    assert s[..|s|] == s;
    DigitRunExact(s, |s|);
    var f := fmt[0].field;
    match Token(s, f)
    case None =>
    case Some(t) =>
      assert s == [] || s[0] != ' ';
      assert t.1 == |s|;
      assert s[t.1..] == [];
      assert fmt[1..][0].Lit?;
      assert ParseFrom(s[t.1..], fmt[1..], Put(Defaults, f, t.0)) == None;
  }

  // ---------------------------------------------------------------- the formats of the two scripts

  /** Every format the scripts use is separated. */
  lemma FormatsSeparated()
    ensures Separated(YmdDash) && Separated(DmyDot) && Separated(YmdDot)
    ensures Separated(YmdDashHms) && Separated(DmyDotHms) && Separated(DmyDotHm)
  {
    DatesSeparated();
    YmdDashHmsSeparated();
    DmyDotHmsSeparated();
    DmyDotHmSeparated();
  }

  lemma DatesSeparated()
    ensures Separated(YmdDash) && Separated(DmyDot) && Separated(YmdDot)
  {
  }

  lemma YmdDashHmsSeparated()
    ensures Separated(YmdDashHms)
  {
  }

  lemma DmyDotHmsSeparated()
    ensures Separated(DmyDotHms)
  {
  }

  lemma DmyDotHmSeparated()
    ensures Separated(DmyDotHm)
  {
  }

  /** A valid date-time lies in the pattern range of every field a format can mention. */
  lemma ValidInRange(dt: DateTime, fmt: Format)
    requires ValidDateTime(dt)
    ensures InRange(dt, fmt)
  {
    assert DaysInMonth(dt.year, dt.month) <= 31;
  }

  /** Text that starts with a day is refused by the formats that start with a year. */
  lemma DayFirstRefusedByYearFirst(dt: DateTime, fmt: Format)
    requires fmt == DmyDot || fmt == DmyDotHms || fmt == DmyDotHm
    requires InRange(dt, fmt)
    ensures Parse(Written(dt, fmt), YmdDash) == None && Parse(Written(dt, fmt), YmdDashHms) == None
  {
    FormatsSeparated();
    LeadingDigits(dt, fmt);
    FirstTokenRefused(Written(dt, fmt), YmdDash);
    FirstTokenRefused(Written(dt, fmt), YmdDashHms);
  }

  /** Text that starts with a year is refused by the formats that start with a day. */
  lemma YearFirstRefusedByDayFirst(dt: DateTime, fmt: Format)
    requires fmt == YmdDash || fmt == YmdDashHms
    requires InRange(dt, fmt)
    ensures Parse(Written(dt, fmt), DmyDot) == None
    ensures Parse(Written(dt, fmt), DmyDotHms) == None && Parse(Written(dt, fmt), DmyDotHm) == None
  {
    FormatsSeparated();
    LeadingDigits(dt, fmt);
    FirstTokenRefused(Written(dt, fmt), DmyDot);
    FirstTokenRefused(Written(dt, fmt), DmyDotHms);
    FirstTokenRefused(Written(dt, fmt), DmyDotHm);
  }

  /** A date-only format reads back the date it wrote, at midnight. */
  lemma DateRoundTrip(dt: DateTime, fmt: Format)
    requires fmt == YmdDash || fmt == DmyDot
    requires ValidDateTime(dt)
    ensures Parse(Written(dt, fmt), fmt) == Some(DateTime(dt.year, dt.month, dt.day, 0, 0, 0))
  {
    DatesSeparated();
    DateFields(fmt);
    ValidInRange(dt, fmt);
    ParseWrittenDate(dt, fmt);
  }

  /** A format with all six fields reads back the date-time it wrote. */
  lemma DateTimeRoundTrip(dt: DateTime, fmt: Format)
    requires fmt == YmdDashHms || fmt == DmyDotHms
    requires ValidDateTime(dt)
    ensures Parse(Written(dt, fmt), fmt) == Some(dt)
  {
    if fmt == YmdDashHms { YmdDashHmsSeparated(); } else { DmyDotHmsSeparated(); }
    DateTimeFields(fmt);
    ValidInRange(dt, fmt);
    RoundTrip(dt, fmt);
    FillAll(dt, fmt);
    ParseValid(Written(dt, fmt), fmt, dt);
  }

  /** "%d.%m.%Y %H:%M" reads back the date-time it wrote, with the second 0. */
  lemma MinutesRoundTrip(dt: DateTime)
    requires ValidDateTime(dt)
    ensures Parse(Written(dt, DmyDotHm), DmyDotHm) == Some(dt.(second := 0))
  {
    DmyDotHmSeparated();
    ValidInRange(dt, DmyDotHm);
    RoundTrip(dt, DmyDotHm);
    FillMinutes(dt);
    assert ValidDateTime(dt.(second := 0));
    ParseValid(Written(dt, DmyDotHm), DmyDotHm, dt.(second := 0));
  }

  /** Reading `DD.MM.YYYY HH:MM` takes every field but the second, which keeps its default 0. */
  lemma FillMinutes(dt: DateTime)
    ensures Fill(Defaults, dt, DmyDotHm) == dt.(second := 0)
  {
    var d := dt.(second := 0);
    MinuteFields();
    forall f ensures Get(Fill(Defaults, dt, DmyDotHm), f) == Get(d, f) { FillFields(Defaults, dt, DmyDotHm, f); }
    SameFields(Fill(Defaults, dt, DmyDotHm), d);
  }

  /** A day past the end of its month, written "%d.%m.%Y", is refused by that format. */
  lemma InvalidDateRefused(dt: DateTime)
    requires InRange(dt, DmyDot) && !ValidDateTime(DateTime(dt.year, dt.month, dt.day, 0, 0, 0))
    ensures Parse(Written(dt, DmyDot), DmyDot) == None
  {
    DatesSeparated();
    RoundTrip(dt, DmyDot);
    DateFields(DmyDot);
    FillDate(dt, DmyDot);
    ParseInvalid(Written(dt, DmyDot), DmyDot, DateTime(dt.year, dt.month, dt.day, 0, 0, 0));
  }

  /** Which fields each format mentions. */
  lemma DateFields(fmt: Format)
    requires fmt == YmdDash || fmt == DmyDot
    ensures Num(Year) in fmt && Num(Month) in fmt && Num(Day) in fmt
    ensures Num(Hour) !in fmt && Num(Minute) !in fmt && Num(Second) !in fmt
  {
  }

  lemma DateTimeFields(fmt: Format)
    requires fmt == YmdDashHms || fmt == DmyDotHms
    ensures Num(Year) in fmt && Num(Month) in fmt && Num(Day) in fmt
    ensures Num(Hour) in fmt && Num(Minute) in fmt && Num(Second) in fmt
  {
    assert fmt[0] in fmt && fmt[2] in fmt && fmt[4] in fmt;
    assert fmt[6] in fmt && fmt[8] in fmt && fmt[10] in fmt;
  }

  lemma MinuteFields()
    ensures Num(Year) in DmyDotHm && Num(Month) in DmyDotHm && Num(Day) in DmyDotHm
    ensures Num(Hour) in DmyDotHm && Num(Minute) in DmyDotHm && Num(Second) !in DmyDotHm
  {
    assert DmyDotHm[0] in DmyDotHm && DmyDotHm[2] in DmyDotHm && DmyDotHm[4] in DmyDotHm;
    assert DmyDotHm[6] in DmyDotHm && DmyDotHm[8] in DmyDotHm;
  }

  /** A date-only format refuses its date followed by a time of day: unconverted data remains. */
  lemma DateRefusesTime(dt: DateTime, date: Format, time: Format)
    requires (date == YmdDash && time == Hms) || (date == DmyDot && (time == Hms || time == Hm))
    requires InRange(dt, date + time)
    ensures Parse(Written(dt, date + time), date) == None
  {
    FormatsSeparated();
    WrittenAppend(dt, date, time);
    assert Written(dt, time)[0] == ' ';
    ParseLeftover(dt, date, Written(dt, time));
  }

  /** The formats that go on with a time of day refuse a date alone. */
  lemma DateRefusedByTime(dt: DateTime, date: Format, time: Format)
    requires (date == YmdDash && time == Hms) || (date == DmyDot && (time == Hms || time == Hm))
    requires InRange(dt, date)
    ensures Parse(Written(dt, date), date + time) == None
  {
    FormatsSeparated();
    ParseWritten(dt, date, [], time, Defaults);
    assert Written(dt, date) + [] == Written(dt, date);
  }

  /** "%d.%m.%Y %H:%M:%S" refuses a date-time written without seconds. */
  lemma MinutesRefusedBySeconds(dt: DateTime)
    requires InRange(dt, DmyDotHm)
    ensures Parse(Written(dt, DmyDotHm), DmyDotHms) == None
  {
    FormatsSeparated();
    ParseTooShort(dt, DmyDotHm, ':', [Num(Second)]);
    assert DmyDotHm + [Lit(':')] + [Num(Second)] == DmyDotHms;
  }

  /** What "%d.%m.%Y" writes: day, dot, month, dot, year. */
  lemma WrittenDayFirst(dt: DateTime)
    requires 0 <= dt.year <= 9999 && 1 <= dt.month <= 12 && 1 <= dt.day <= 31
    ensures InRange(dt, DmyDot)
    ensures Written(dt, DmyDot) == Digits(dt, Day) + "." + Digits(dt, Month) + "." + Digits(dt, Year)
  {
    var f := DmyDot;
    assert Written(dt, f[4..]) == Digits(dt, Year);
    assert Written(dt, f[3..]) == "." + Digits(dt, Year);
    assert Written(dt, f[2..]) == Digits(dt, Month) + "." + Digits(dt, Year);
    assert Written(dt, f[1..]) == "." + Digits(dt, Month) + "." + Digits(dt, Year);
  }
}
