// The proleptic Gregorian calendar behind JavaScript dates, for years 0 to 9999, and the date-only
// form YYYY-MM-DD. Days are counted from 0000-01-01.
module Calendar {
  import opened Options
  import opened Strings

  const MILLISECONDS_PER_DAY := 24 * 60 * 60 * 1000

  datatype Civil = Civil(year: int, month: int, day: int)

  predicate Leap(year: int) {
    year % 4 == 0 && (year % 100 != 0 || year % 400 == 0)
  }

  function YearLength(year: int): nat {
    if Leap(year) then 366 else 365
  }

  function MonthLength(year: int, month: int): nat {
    if month == 2 then if Leap(year) then 29 else 28
    else if month == 4 || month == 6 || month == 9 || month == 11 then 30 else 31
  }

  predicate Valid(c: Civil) {
    0 <= c.year && 1 <= c.month <= 12 && 1 <= c.day <= MonthLength(c.year, c.month)
  }

  function YearStart(year: nat): nat {
    if year == 0 then 0 else YearStart(year - 1) + YearLength(year - 1)
  }

  function MonthStart(year: int, month: nat): nat {
    if month <= 1 then 0 else MonthStart(year, month - 1) + MonthLength(year, month - 1)
  }

  function DayNumber(c: Civil): nat
    requires Valid(c)
  {
    YearStart(c.year) + MonthStart(c.year, c.month) + c.day - 1
  }

  function NextDay(c: Civil): Civil {
    if c.day < MonthLength(c.year, c.month) then c.(day := c.day + 1)
    else if c.month < 12 then Civil(c.year, c.month + 1, 1)
    else Civil(c.year + 1, 1, 1)
  }

  // The calendar date of a day: the one reached from 0000-01-01 by counting.
  function CivilOf(day: nat): Civil {
    if day == 0 then Civil(0, 1, 1) else NextDay(CivilOf(day - 1))
  }

  // ---------------------------------------------------------------- counting days

  lemma {:induction false} MonthsFillYear(year: int, month: nat)
    requires 1 <= month <= 12
    ensures MonthStart(year, month) + MonthLength(year, month) <= YearLength(year)
    ensures month == 12 ==> MonthStart(year, month) + MonthLength(year, month) == YearLength(year)
  {
    assert MonthStart(year, 2) == 31 && MonthStart(year, 3) == MonthStart(year, 2) + MonthLength(year, 2);
    assert MonthStart(year, 4) == MonthStart(year, 3) + 31 && MonthStart(year, 5) == MonthStart(year, 4) + 30;
    assert MonthStart(year, 6) == MonthStart(year, 5) + 31 && MonthStart(year, 7) == MonthStart(year, 6) + 30;
    assert MonthStart(year, 8) == MonthStart(year, 7) + 31 && MonthStart(year, 9) == MonthStart(year, 8) + 31;
    assert MonthStart(year, 10) == MonthStart(year, 9) + 30 && MonthStart(year, 11) == MonthStart(year, 10) + 31;
    assert MonthStart(year, 12) == MonthStart(year, 11) + 30;
  }

  lemma NextDayCounts(c: Civil)
    requires Valid(c)
    ensures Valid(NextDay(c)) && DayNumber(NextDay(c)) == DayNumber(c) + 1
  {
    MonthsFillYear(c.year, c.month);
  }

  // Every day has a calendar date, and counting it gives the day back.
  lemma {:induction false} CivilOfCounts(day: nat)
    ensures Valid(CivilOf(day)) && DayNumber(CivilOf(day)) == day
  {
    if day > 0 {
      CivilOfCounts(day - 1);
      NextDayCounts(CivilOf(day - 1));
    }
  }

  lemma {:induction false} YearStartGrows(a: nat, b: nat)
    requires a < b
    ensures YearStart(a) + YearLength(a) <= YearStart(b)
  {
    if a < b - 1 { YearStartGrows(a, b - 1); }
  }

  lemma {:induction false} MonthStartGrows(year: int, a: nat, b: nat)
    requires 1 <= a < b
    ensures MonthStart(year, a) + MonthLength(year, a) <= MonthStart(year, b)
  {
    if a < b - 1 { MonthStartGrows(year, a, b - 1); }
  }

  predicate CivilBefore(a: Civil, b: Civil) {
    a.year < b.year || (a.year == b.year && (a.month < b.month || (a.month == b.month && a.day < b.day)))
  }

  // Year, month and day, compared in that order, are compared like the days they name.
  lemma DayOrder(a: Civil, b: Civil)
    requires Valid(a) && Valid(b)
    ensures CivilBefore(a, b) <==> DayNumber(a) < DayNumber(b)
    ensures a == b <==> DayNumber(a) == DayNumber(b)
  {
    Earlier(a, b);
    Earlier(b, a);
  }

  lemma Earlier(a: Civil, b: Civil)
    requires Valid(a) && Valid(b)
    ensures CivilBefore(a, b) ==> DayNumber(a) < DayNumber(b)
  {
    MonthsFillYear(a.year, a.month);
    if a.year < b.year { YearStartGrows(a.year, b.year); }
    else if a.year == b.year && a.month < b.month { MonthStartGrows(a.year, a.month, b.month); }
  }

  lemma CivilOfDayNumber(c: Civil)
    requires Valid(c)
    ensures CivilOf(DayNumber(c)) == c
  {
    CivilOfCounts(DayNumber(c));
    DayOrder(CivilOf(DayNumber(c)), c);
  }

  // ---------------------------------------------------------------- the epoch

  const EPOCH_DAY := 719528

  // How often a multiple of 4, of 100 and of 400 is passed.
  lemma FoursPassed(y: nat)
    ensures (y + 4) / 4 - (y + 3) / 4 == if y % 4 == 0 then 1 else 0
  {
  }

  lemma HundredsPassed(y: nat)
    ensures (y + 100) / 100 - (y + 99) / 100 == if y % 100 == 0 then 1 else 0
  {
  }

  lemma FourHundredsPassed(y: nat)
    ensures (y + 400) / 400 - (y + 399) / 400 == if y % 400 == 0 then 1 else 0
  {
  }

  lemma {:induction false} LeapDays(y: nat)
    ensures YearLength(y) == 365 + (if y % 4 == 0 then 1 else 0) - (if y % 100 == 0 then 1 else 0)
      + (if y % 400 == 0 then 1 else 0)
  {
    assert y % 400 == 0 ==> y % 100 == 0;
    assert y % 100 == 0 ==> y % 4 == 0;
  }

  lemma {:induction false} YearStartClosed(year: nat)
    ensures YearStart(year) == 365 * year + (year + 3) / 4 - (year + 99) / 100 + (year + 399) / 400
  {
    if year > 0 {
      YearStartClosed(year - 1);
      FoursPassed(year - 1);
      HundredsPassed(year - 1);
      FourHundredsPassed(year - 1);
      LeapDays(year - 1);
    }
  }

  // The days of years that begin in March.
  function MarchYears(y: int): int {
    365 * y + y / 4 - y / 100 + y / 400
  }

  lemma {:induction false} MarchYearStart(year: nat)
    ensures YearStart(year) == MarchYears(year - 1) + 366
    ensures YearStart(year) + (if Leap(year) then 1 else 0) == MarchYears(year) + 1
  {
    YearStartClosed(year);
    LeapDays(year);
    FloorsShift(year);
    FoursPassed(year);
    HundredsPassed(year);
    FourHundredsPassed(year);
    hide YearStart;
  }

  // The day number in closed form: no table and no counting.
  lemma {:induction false} DayNumberClosed(c: Civil)
    requires Valid(c)
    ensures DayNumber(c) ==
      MarchYears(if c.month <= 2 then c.year - 1 else c.year) + (153 * ((c.month + 9) % 12) + 2) / 5 + c.day - 1 + 60
  {
    MarchYearStart(c.year);
    MonthStartClosed(c.year, c.month);
    hide YearStart, MonthStart, MarchYears, Leap;
  }

  lemma {:induction false} MonthStartClosed(year: int, month: nat)
    requires 1 <= month <= 12
    ensures MonthStart(year, month) ==
      if month <= 2 then 31 * (month - 1)
      else (153 * ((month + 9) % 12) + 2) / 5 + 59 + (if Leap(year) then 1 else 0)
  {
    assert MonthStart(year, 2) == 31 && MonthStart(year, 3) == MonthStart(year, 2) + MonthLength(year, 2);
    assert MonthStart(year, 4) == MonthStart(year, 3) + 31 && MonthStart(year, 5) == MonthStart(year, 4) + 30;
    assert MonthStart(year, 6) == MonthStart(year, 5) + 31 && MonthStart(year, 7) == MonthStart(year, 6) + 30;
    assert MonthStart(year, 8) == MonthStart(year, 7) + 31 && MonthStart(year, 9) == MonthStart(year, 8) + 31;
    assert MonthStart(year, 10) == MonthStart(year, 9) + 30 && MonthStart(year, 11) == MonthStart(year, 10) + 31;
    assert MonthStart(year, 12) == MonthStart(year, 11) + 30;
  }

  lemma FloorsShift(y: nat)
    ensures (y + 3) / 4 == (y - 1) / 4 + 1 && (y + 99) / 100 == (y - 1) / 100 + 1 && (y + 399) / 400 == (y - 1) / 400 + 1
    ensures (y + 4) / 4 == y / 4 + 1 && (y + 100) / 100 == y / 100 + 1 && (y + 400) / 400 == y / 400 + 1
  {
  }

  // 1970-01-01 is day zero of JavaScript time values.
  lemma EpochDay()
    ensures DayNumber(Civil(1970, 1, 1)) == EPOCH_DAY
  {
    YearStartClosed(1970);
  }

  // ---------------------------------------------------------------- time values

  const DAYS_PER_ERA := 146097

  // The calendar repeats every 400 years; days before year 0 are read one or more eras later.
  function Eras(day: int): (eras: nat)
    ensures day >= 0 ==> eras == 0
    ensures day < 0 ==> eras > 0 && 0 <= day + eras * DAYS_PER_ERA <= DAYS_PER_ERA
  {
    if day >= 0 then 0 else -day / DAYS_PER_ERA + 1
  }

  function CivilOfAny(day: int): Civil {
    var c := CivilOf(day + Eras(day) * DAYS_PER_ERA);
    c.(year := c.year - 400 * Eras(day))
  }

  // The day of an instant, counted like a DayNumber, and what is left of it.
  function DayOf(milliseconds: int): int {
    milliseconds / MILLISECONDS_PER_DAY + EPOCH_DAY
  }

  function TimeOfDay(milliseconds: int): int {
    milliseconds % MILLISECONDS_PER_DAY
  }

  function MidnightUtc(day: int): int {
    (day - EPOCH_DAY) * MILLISECONDS_PER_DAY
  }

  lemma InDay(day: int, timeOfDay: int)
    requires 0 <= timeOfDay < MILLISECONDS_PER_DAY
    ensures DayOf(MidnightUtc(day) + timeOfDay) == day && TimeOfDay(MidnightUtc(day) + timeOfDay) == timeOfDay
  {
  }

  // ---------------------------------------------------------------- date-only strings

  // The template string of formatDateOnly; only four-digit years have the date-only form.
  function FormatDateOnly(c: Civil): (s: string)
    requires Valid(c) && c.year <= 9999
    ensures |s| == 10
  {
    Widths();
    Pad(4, c.year) + "-" + Pad(2, c.month) + "-" + Pad(2, c.day)
  }

  lemma Widths()
    ensures Pow10(4) == 10000 && Pow10(2) == 100 && Pow10(3) == 1000
  {
  }

  // The pattern of a date-only value, and its three numbers.
  function ParseDateOnly(s: string): Option<Civil> {
    if |s| == 10 && s[4] == '-' && s[7] == '-' && AllDigits(s[..4]) && AllDigits(s[5..7]) && AllDigits(s[8..])
    then
      var c := Civil(Parse(s[..4]), Parse(s[5..7]), Parse(s[8..]));
      if Valid(c) then Some(c) else None
    else None
  }

  predicate IsDateOnly(s: string) {
    ParseDateOnly(s).Some?
  }

  // Date.parse of a date-only value.
  function DateParse(dateOnly: string): int
    requires IsDateOnly(dateOnly)
  {
    MidnightUtc(DayNumber(ParseDateOnly(dateOnly).value))
  }

  lemma ParseFormat(c: Civil)
    requires Valid(c) && c.year <= 9999
    ensures ParseDateOnly(FormatDateOnly(c)) == Some(c)
  {
    Widths();
    var s := FormatDateOnly(c);
    assert s[..4] == Pad(4, c.year) && s[5..7] == Pad(2, c.month) && s[8..] == Pad(2, c.day);
    ParsePad(4, c.year);
    ParsePad(2, c.month);
    ParsePad(2, c.day);
  }

  // A date-only string is exactly the canonical form of a calendar date.
  lemma FormatParse(s: string)
    requires IsDateOnly(s)
    ensures var c := ParseDateOnly(s).value; Valid(c) && c.year <= 9999 && FormatDateOnly(c) == s
  {
    Widths();
    var y, m, d := s[..4], s[5..7], s[8..];
    assert s == y + "-" + m + "-" + d;
    PadParse(y);
    PadParse(m);
    PadParse(d);
    assert Pow10(|y|) == 10000 && Pad(4, Parse(y)) == y && Pad(2, Parse(m)) == m && Pad(2, Parse(d)) == d;
  }

  // Comparing two date-only strings compares the dates.
  lemma DateOnlyOrder(a: Civil, b: Civil)
    requires Valid(a) && Valid(b) && a.year <= 9999 && b.year <= 9999
    ensures StringLe(FormatDateOnly(a), FormatDateOnly(b)) <==> DayNumber(a) <= DayNumber(b)
  {
    Widths();
    DashedOrder(Pad(4, a.year), Pad(2, a.month), Pad(2, a.day), Pad(4, b.year), Pad(2, b.month), Pad(2, b.day));
    PadOrder(4, a.year, b.year);
    PadInjective(4, a.year, b.year);
    PadOrder(2, a.month, b.month);
    PadInjective(2, a.month, b.month);
    PadOrder(2, a.day, b.day);
    DayOrder(a, b);
    DayOrder(b, a);
  }

  lemma {:induction false} DashOrder(p: string, q: string, r: string, s: string)
    requires |p| == |r|
    ensures StringLe(p + ("-" + q), r + ("-" + s)) <==> (p != r && StringLe(p, r)) || (p == r && StringLe(q, s))
  {
    StringLeConcat(p, "-" + q, r, "-" + s);
    StringLeConcat("-", q, "-", s);
  }

  lemma DashedOrder(y: string, m: string, d: string, y': string, m': string, d': string)
    requires |y| == |y'| && |m| == |m'|
    ensures StringLe(y + "-" + m + "-" + d, y' + "-" + m' + "-" + d') <==>
      (y != y' && StringLe(y, y')) || (y == y' && ((m != m' && StringLe(m, m')) || (m == m' && StringLe(d, d'))))
  {
    var t, t' := m + ("-" + d), m' + ("-" + d');
    assert y + "-" + m + "-" + d == y + ("-" + t) && y' + "-" + m' + "-" + d' == y' + ("-" + t');
    DashOrder(y, t, y', t');
    DashOrder(m, d, m', d');
  }
}
