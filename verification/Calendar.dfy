/** Julian day numbers and UTC conversion, in both directions. */
module Calendar {

  /** Division and remainder as C++ computes them, rounding toward zero. */
  function Div(a: int, b: int): int
    requires b > 0
  {
    if a >= 0 then a / b else -(-a / b)
  }

  function Mod(a: int, b: int): int
    requires b > 0
  {
    a - Div(a, b) * b
  }

  datatype YearMonthDay = YearMonthDay(year: int, month: int, day: int)

  function GetJulianDayNumber(year: int, month: int, day: int): int {
    var a := Div(14 - month, 12);
    var y := year + 4800 - a;
    var m := month + 12 * a - 3;
    day + Div(153 * m + 2, 5) + y * 365 + Div(y, 4) - Div(y, 100) + Div(y, 400) - 32045
  }

  function GetYearMonthDay(julianDayNumber: int): YearMonthDay {
    var a := julianDayNumber + 32044;
    var b := Div(4 * a + 3, 146097);
    var c := a - Div(b * 146097, 4);
    var d := Div(4 * c + 3, 1461);
    var e := c - Div(1461 * d, 4);
    var m := Div(5 * e + 2, 153);
    YearMonthDay(b * 100 + d - 4800 + Div(m, 10), m + 3 - 12 * Div(m, 10), e - Div(153 * m + 2, 5) + 1)
  }

  // --------------------------------------------------- the Gregorian calendar

  predicate IsLeap(year: int) {
    year % 4 == 0 && (year % 100 != 0 || year % 400 == 0)
  }

  function DaysIn(year: int, month: int): int {
    if month == 2 then (if IsLeap(year) then 29 else 28)
    else if month == 4 || month == 6 || month == 9 || month == 11 then 30
    else 31
  }

  predicate IsDate(x: YearMonthDay) {
    1 <= x.month <= 12 && 1 <= x.day <= DaysIn(x.year, x.month)
  }

  function NextDay(x: YearMonthDay): YearMonthDay {
    if x.day < DaysIn(x.year, x.month) then x.(day := x.day + 1)
    else if x.month < 12 then YearMonthDay(x.year, x.month + 1, 1)
    else YearMonthDay(x.year + 1, 1, 1)
  }

  function Jdn(x: YearMonthDay): int {
    GetJulianDayNumber(x.year, x.month, x.day)
  }

  /** The first year for which the formulas are used on nonnegative numbers throughout. */
  const FIRST_YEAR := -4799

  predicate InRange(x: YearMonthDay) {
    IsDate(x) && x.year >= FIRST_YEAR
  }

  // ------------------------------------------------------- years from March

  /** The year from March 4801 B.C. on, and the month from March on. */
  function MarchYear(x: YearMonthDay): int {
    if x.month <= 2 then x.year + 4799 else x.year + 4800
  }

  function MarchMonth(x: YearMonthDay): int {
    if x.month <= 2 then x.month + 9 else x.month - 3
  }

  /** Days since the first of March of the date's March year. */
  function DayOfYear(x: YearMonthDay): int {
    (153 * MarchMonth(x) + 2) / 5 + x.day - 1
  }

  lemma DayOfYearIs(x: YearMonthDay)
    requires InRange(x)
    ensures 0 <= DayOfYear(x) <= 365 && (DayOfYear(x) == 365 ==> x.month == 2 && IsLeap(x.year))
    ensures (5 * DayOfYear(x) + 2) / 153 == MarchMonth(x)
  {
    var m := MarchMonth(x);
    assert 0 <= m <= 11;
    if m == 0 {} else if m == 1 {} else if m == 2 {} else if m == 3 {} else if m == 4 {} else if m == 5 {}
    else if m == 6 {} else if m == 7 {} else if m == 8 {} else if m == 9 {} else if m == 10 {} else {}
  }

  /** Days before the March year `y`. */
  function DaysBefore(y: int): int {
    365 * y + y / 4 - y / 100 + y / 400
  }

  lemma JdnIs(x: YearMonthDay)
    requires InRange(x)
    ensures MarchYear(x) >= 0 && Jdn(x) == DaysBefore(MarchYear(x)) + DayOfYear(x) - 32044
  {
    assert Div(14 - x.month, 12) == if x.month <= 2 then 1 else 0;
  }

  lemma Centuries(y: int)
    requires y >= 0
    ensures y / 4 == 25 * (y / 100) + (y % 100) / 4 && y / 400 == y / 100 / 4
  {
  }

  /** A March year is made of whole centuries and years within one. */
  lemma DaysBeforeIs(y: int)
    requires y >= 0
    ensures DaysBefore(y) == 146097 * (y / 100) / 4 + 1461 * (y % 100) / 4
  {
    Centuries(y);
    var q, r := y / 100, y % 100;
    assert y == 100 * q + r;
    assert 146097 * q / 4 == 36524 * q + q / 4;
    assert 1461 * r / 4 == 365 * r + r / 4;
  }

  /** Only the last year of four centuries has a leap day at the end of its century. */
  lemma LeapEnds(x: YearMonthDay)
    requires InRange(x) && DayOfYear(x) == 365
    ensures var y := MarchYear(x); y % 4 == 3 && (y % 100 == 99 ==> y / 100 % 4 == 3)
  {
    DayOfYearIs(x);
    var y := MarchYear(x);
    assert y == x.year + 4799;
    LeapMarch(x.year, y);
  }

  lemma LeapMarch(year: int, y: int)
    requires IsLeap(year) && y == year + 4799 && y >= 0
    ensures y % 4 == 3 && (y % 100 == 99 ==> y / 100 % 4 == 3)
  {
  }

  lemma FindCentury(q: int, c: int)
    requires q >= 0 && 0 <= c && (c < 36524 || (c == 36524 && q % 4 == 3))
    ensures (4 * (146097 * q / 4 + c) + 3) / 146097 == q
  {
    assert 4 * (146097 * q / 4) == 146097 * q - q % 4;
  }

  lemma FindYear(r: int, e: int)
    requires 0 <= r < 100 && 0 <= e && (e < 365 || (e == 365 && r % 4 == 3))
    ensures (4 * (1461 * r / 4 + e) + 3) / 1461 == r
  {
    assert 4 * (1461 * r / 4) == 1461 * r - r % 4;
  }

  /** Converting a date to its Julian day number and back gives the date. */
  lemma DateRoundTrip(x: YearMonthDay)
    requires InRange(x)
    ensures GetYearMonthDay(Jdn(x)) == x
  {
    var q, r, n := MarchYear(x) / 100, MarchYear(x) % 100, DayOfYear(x);
    LocateDate(x, q, r, n);
    MonthBack(x);
    Steps(Jdn(x), q, 1461 * r / 4 + n, r, n, MarchMonth(x));
  }

  /** The intermediate values of the conversion are the century, the year in it, and the day. */
  lemma LocateDate(x: YearMonthDay, q: int, r: int, n: int)
    requires InRange(x) && q == MarchYear(x) / 100 && r == MarchYear(x) % 100 && n == DayOfYear(x)
    ensures q >= 0 && r >= 0 && n >= 0
    ensures var c := 1461 * r / 4 + n;
      && Jdn(x) + 32044 == q * 146097 / 4 + c && (4 * (Jdn(x) + 32044) + 3) / 146097 == q
      && (4 * c + 3) / 1461 == r && (5 * n + 2) / 153 == MarchMonth(x)
  {
    JdnIs(x);
    DayOfYearIs(x);
    if n == 365 {
      LeapEnds(x);
    }
    Locate(MarchYear(x), n);
  }

  /** A day count of a March year gives back the century and the year of the century. */
  lemma Locate(y: int, n: int)
    requires y >= 0 && 0 <= n <= 365 && (n == 365 ==> y % 4 == 3 && (y % 100 == 99 ==> y / 100 % 4 == 3))
    ensures var q, r := y / 100, y % 100;
      var c := 1461 * r / 4 + n;
      && DaysBefore(y) + n == q * 146097 / 4 + c
      && (4 * (DaysBefore(y) + n) + 3) / 146097 == q && (4 * c + 3) / 1461 == r
  {
    var q, r := y / 100, y % 100;
    DaysBeforeIs(y);
    LastTwoDigits(y);
    CenturyBound(r, n, q);
    FindCentury(q, 1461 * r / 4 + n);
    FindYear(r, n);
  }

  lemma LastTwoDigits(y: int)
    requires y >= 0
    ensures y % 4 == y % 100 % 4
  {
    assert y == 4 * (25 * (y / 100)) + y % 100;
  }

  lemma CenturyBound(r: int, e: int, q: int)
    requires 0 <= r < 100 && 0 <= e <= 365 && (e == 365 ==> r % 4 == 3 && (r == 99 ==> q % 4 == 3))
    ensures 1461 * r / 4 + e < 36524 || (1461 * r / 4 + e == 36524 && q % 4 == 3)
  {
  }

  /** The conversion with its intermediate values named. */
  lemma Steps(j: int, b: int, c: int, d: int, e: int, m: int)
    requires b >= 0 && c >= 0 && d >= 0 && e >= 0
    requires j + 32044 == b * 146097 / 4 + c && (4 * (j + 32044) + 3) / 146097 == b
    requires (4 * c + 3) / 1461 == d && c == 1461 * d / 4 + e && (5 * e + 2) / 153 == m
    ensures GetYearMonthDay(j) ==
            YearMonthDay(b * 100 + d - 4800 + m / 10, m + 3 - 12 * (m / 10), e - (153 * m + 2) / 5 + 1)
  {
    var a := j + 32044;
    assert Div(4 * a + 3, 146097) == b && Div(b * 146097, 4) == b * 146097 / 4;
    assert Div(4 * c + 3, 1461) == d && Div(1461 * d, 4) == 1461 * d / 4;
    assert Div(5 * e + 2, 153) == m;
  }

  lemma MonthBack(x: YearMonthDay)
    requires InRange(x)
    ensures var m := MarchMonth(x);
      && 0 <= m <= 11 && m + 3 - 12 * (m / 10) == x.month
      && 100 * (MarchYear(x) / 100) + MarchYear(x) % 100 - 4800 + m / 10 == x.year
      && DayOfYear(x) - (153 * m + 2) / 5 + 1 == x.day
  {
  }

  /** The next calendar day has the next Julian day number. */
  lemma NextDayCounts(x: YearMonthDay)
    requires InRange(x)
    ensures InRange(NextDay(x)) && Jdn(NextDay(x)) == Jdn(x) + 1
  {
    var z := NextDay(x);
    assert InRange(z);
    JdnIs(x);
    JdnIs(z);
    if MarchYear(z) != MarchYear(x) {
      assert x.month == 2 && z == YearMonthDay(x.year, 3, 1);
      YearLength(x.year, MarchYear(x));
      assert DayOfYear(z) == 0 && DayOfYear(x) == DaysIn(x.year, 2) + 336;
    } else {
      NextDayOfYear(x);
    }
  }

  lemma NextDayOfYear(x: YearMonthDay)
    requires InRange(x) && MarchYear(NextDay(x)) == MarchYear(x)
    ensures DayOfYear(NextDay(x)) == DayOfYear(x) + 1
  {
    var m := MarchMonth(x);
    assert 0 <= m <= 11;
    if x.day == DaysIn(x.year, x.month) {
      assert MarchMonth(NextDay(x)) == m + 1;
      MonthLength(m);
    }
  }

  lemma MonthLength(m: int)
    requires 0 <= m < 11
    ensures (153 * (m + 1) + 2) / 5 - (153 * m + 2) / 5 == if m == 1 || m == 3 || m == 6 || m == 8 then 30 else 31
  {
  }

  lemma YearLength(year: int, y: int)
    requires y == year + 4799 && y >= 0
    ensures DaysBefore(y + 1) == DaysBefore(y) + (if IsLeap(year) then 366 else 365)
  {
    NextQuotient(y, 4);
    NextQuotient(y, 100);
    NextQuotient(y, 400);
    LeapNext(year, y);
  }

  lemma NextQuotient(y: int, n: int)
    requires y >= 0 && (n == 4 || n == 100 || n == 400)
    ensures (y + 1) / n == y / n + (if (y + 1) % n == 0 then 1 else 0)
  {
  }

  lemma LeapNext(year: int, y: int)
    requires y == year + 4799
    ensures year % 4 == (y + 1) % 4 && year % 100 == (y + 1) % 100 && year % 400 == (y + 1) % 400
  {
    assert y + 1 == year + 4800;
    SameBy4(year);
    SameBy100(year);
    SameBy400(year);
  }

  lemma SameBy4(a: int)
    ensures (a + 4800) % 4 == a % 4
  {
    assert a + 4800 == 4 * (a / 4 + 1200) + a % 4;
  }

  lemma SameBy100(a: int)
    ensures (a + 4800) % 100 == a % 100
  {
    assert a + 4800 == 100 * (a / 100 + 48) + a % 100;
  }

  lemma SameBy400(a: int)
    ensures (a + 4800) % 400 == a % 400
  {
    assert a + 4800 == 400 * (a / 400 + 12) + a % 400;
  }

  /** The date with a given Julian day number, found by counting days from the first year. */
  function FirstJdn(): int {
    Jdn(YearMonthDay(FIRST_YEAR, 1, 1))
  }

  lemma {:induction false} EveryDayHasADate(j: int) returns (x: YearMonthDay)
    requires j >= FirstJdn()
    ensures InRange(x) && Jdn(x) == j
    decreases j - FirstJdn()
  {
    if j == FirstJdn() {
      x := YearMonthDay(FIRST_YEAR, 1, 1);
    } else {
      var before := EveryDayHasADate(j - 1);
      NextDayCounts(before);
      x := NextDay(before);
    }
  }

  /** Converting a Julian day number to a date and back gives the number, and the date exists. */
  lemma JdnRoundTrip(j: int)
    requires j >= FirstJdn()
    ensures InRange(GetYearMonthDay(j)) && Jdn(GetYearMonthDay(j)) == j
  {
    var x := EveryDayHasADate(j);
    DateRoundTrip(x);
  }

  // -------------------------------------------------------------------- UTC

  const SECONDS_PER_DAY := 24 * 60 * 60

  const JULIAN_DAY_OF_1970 := GetJulianDayNumber(1970, 1, 1)

  /** The fields of struct tm that the conversions use. */
  datatype Tm = Tm(year: int, mon: int, mday: int, hour: int, min: int, sec: int, wday: int, yday: int)

  function WeekDay(julianDayNumber: int): int {
    Mod(julianDayNumber + 1, 7)
  }

  /** Day and second of the day of a time, for times before 1970 as well. */
  function DayAndSecond(t: int): (int, int) {
    var seconds, days := Mod(t, SECONDS_PER_DAY), Div(t, SECONDS_PER_DAY);
    if seconds < 0 then (days - 1, seconds + SECONDS_PER_DAY) else (days, seconds)
  }

  function ToUtc(t: int, yday: bool): Tm {
    var (days, seconds) := DayAndSecond(t);
    Fields(days + JULIAN_DAY_OF_1970, seconds, yday)
  }

  /** The fields for a Julian day number and a second of the day. */
  function Fields(j: int, seconds: int, yday: bool): Tm {
    var ymd := GetYearMonthDay(j);
    Tm(ymd.year - 1900, ymd.month - 1, ymd.day, seconds / 60 / 60, seconds / 60 % 60, seconds % 60, WeekDay(j),
       if yday then j - GetJulianDayNumber(ymd.year, 1, 1) else 0)
  }

  function FromUtc(year: int, month: int, day: int, hour: int, minute: int, seconds: int): int {
    FromDays(GetJulianDayNumber(year, month, day), hour, minute, seconds)
  }

  function FromDays(julianDayNumber: int, hour: int, minute: int, seconds: int): int {
    (julianDayNumber - JULIAN_DAY_OF_1970) * SECONDS_PER_DAY + (hour * 3600 + minute * 60 + seconds)
  }

  function FromTm(utc: Tm): int {
    FromUtc(utc.year + 1900, utc.mon + 1, utc.mday, utc.hour, utc.min, utc.sec)
  }

  method ToUtcTime(secondsSinceEpoch: int, yday: bool) returns (utc: Tm)
    ensures utc == ToUtc(secondsSinceEpoch, yday)
  {
    var seconds := Mod(secondsSinceEpoch, SECONDS_PER_DAY);
    var days := Div(secondsSinceEpoch, SECONDS_PER_DAY);
    if seconds < 0 {
      seconds := seconds + SECONDS_PER_DAY;
      days := days - 1;
    }
    DayAndSecondIs(secondsSinceEpoch);
    utc := FillFields(days + JULIAN_DAY_OF_1970, seconds, yday);
  }

  method FillFields(date: int, seconds: nat, yday: bool) returns (utc: Tm)
    ensures utc == Fields(date, seconds, yday)
  {
    utc := Tm(0, 0, 0, 0, 0, 0, 0, 0);
    utc := FillHms(seconds, utc);
    var ymd := GetYearMonthDay(date);
    utc := utc.(year := ymd.year - 1900);
    utc := utc.(mon := ymd.month - 1);
    utc := utc.(mday := ymd.day);
    utc := utc.(wday := WeekDay(date));
    if yday {
      utc := utc.(yday := date - GetJulianDayNumber(ymd.year, 1, 1));
    }
  }

  method FillHms(seconds: nat, utc: Tm) returns (filled: Tm)
    ensures filled == utc.(hour := seconds / 60 / 60, min := seconds / 60 % 60, sec := seconds % 60)
  {
    filled := utc.(sec := seconds % 60);
    var minutes := seconds / 60;
    filled := filled.(min := minutes % 60);
    filled := filled.(hour := minutes / 60);
  }

  lemma DayAndSecondIs(t: int)
    ensures var (d, s) := DayAndSecond(t); t == d * SECONDS_PER_DAY + s && 0 <= s < SECONDS_PER_DAY
  {
  }

  lemma HmsIs(s: int)
    requires 0 <= s < SECONDS_PER_DAY
    ensures s / 60 / 60 * 3600 + s / 60 % 60 * 60 + s % 60 == s && s / 60 / 60 < 24
  {
  }

  /** The first time that falls into the range of years. */
  function FirstTime(): int {
    (FirstJdn() - JULIAN_DAY_OF_1970) * SECONDS_PER_DAY
  }

  /** Broken down and put together again a time is unchanged, before 1970 as well; the
      fields are those of an existing date and time of day. */
  lemma TimeRoundTrip(t: int, yday: bool)
    requires t >= FirstTime()
    ensures FromTm(ToUtc(t, yday)) == t
    ensures TmOk(ToUtc(t, yday))
  {
    DayInRange(t);
    var (d, s) := DayAndSecond(t);
    FieldsInverse(d + JULIAN_DAY_OF_1970, s, yday);
  }

  /** The fields are those of an existing date and time of day. */
  predicate TmOk(utc: Tm) {
    && InRange(YearMonthDay(utc.year + 1900, utc.mon + 1, utc.mday))
    && 0 <= utc.hour < 24 && 0 <= utc.min < 60 && 0 <= utc.sec < 60
  }

  lemma DayInRange(t: int)
    requires t >= FirstTime()
    ensures var (d, s) := DayAndSecond(t);
      d + JULIAN_DAY_OF_1970 >= FirstJdn() && 0 <= s < SECONDS_PER_DAY && t == d * SECONDS_PER_DAY + s
  {
    DayAndSecondIs(t);
    var (d, s) := DayAndSecond(t);
    WholeDays(d, s, FirstJdn() - JULIAN_DAY_OF_1970);
  }

  lemma WholeDays(d: int, s: int, first: int)
    requires 0 <= s < SECONDS_PER_DAY && d * SECONDS_PER_DAY + s >= first * SECONDS_PER_DAY
    ensures d >= first
  {
  }

  lemma FieldsInverse(j: int, s: int, yday: bool)
    requires j >= FirstJdn() && 0 <= s < SECONDS_PER_DAY
    ensures var utc := Fields(j, s, yday);
      FromTm(utc) == (j - JULIAN_DAY_OF_1970) * SECONDS_PER_DAY + s && TmOk(utc)
  {
    HmsIs(s);
    JdnRoundTrip(j);
    FieldsBack(j, GetYearMonthDay(j), s, yday);
  }

  lemma FieldsBack(j: int, x: YearMonthDay, s: int, yday: bool)
    requires x == GetYearMonthDay(j) && j == Jdn(x) && 0 <= s < SECONDS_PER_DAY
    ensures FromTm(Fields(j, s, yday)) == FromDays(j, s / 60 / 60, s / 60 % 60, s % 60)
  {
  }

  /** A valid date and time of day survives the trip through seconds. */
  lemma FieldsRoundTrip(x: YearMonthDay, hour: int, minute: int, second: int)
    requires InRange(x) && 0 <= hour < 24 && 0 <= minute < 60 && 0 <= second < 60
    ensures var utc := ToUtc(FromUtc(x.year, x.month, x.day, hour, minute, second), true);
      && (utc.year + 1900, utc.mon + 1, utc.mday) == (x.year, x.month, x.day)
      && (utc.hour, utc.min, utc.sec) == (hour, minute, second)
      && utc.yday == Jdn(x) - Jdn(YearMonthDay(x.year, 1, 1))
  {
    DateRoundTrip(x);
    DaysBack(Jdn(x), x, hour, minute, second);
  }

  lemma ToUtcAt(t: int, j: int, s: int, yday: bool)
    requires t == (j - JULIAN_DAY_OF_1970) * SECONDS_PER_DAY + s && 0 <= s < SECONDS_PER_DAY
    ensures ToUtc(t, yday) == Fields(j, s, yday)
  {
    SplitDays(t, j - JULIAN_DAY_OF_1970, s);
  }

  lemma SplitDays(t: int, d: int, s: int)
    requires t == d * SECONDS_PER_DAY + s && 0 <= s < SECONDS_PER_DAY
    ensures DayAndSecond(t) == (d, s)
  {
    DayAndSecondIs(t);
  }

  lemma FieldsOf(j: int, x: YearMonthDay, s: int, hour: int, minute: int, second: int)
    requires GetYearMonthDay(j) == x
    requires s / 60 / 60 == hour && s / 60 % 60 == minute && s % 60 == second
    ensures Fields(j, s, true) == FieldsFor(j, x, hour, minute, second)
  {
  }

  function FieldsFor(j: int, x: YearMonthDay, hour: int, minute: int, second: int): Tm {
    Tm(x.year - 1900, x.month - 1, x.day, hour, minute, second, WeekDay(j), j - GetJulianDayNumber(x.year, 1, 1))
  }

  lemma DaysBack(j: int, x: YearMonthDay, hour: int, minute: int, second: int)
    requires GetYearMonthDay(j) == x
    requires 0 <= hour < 24 && 0 <= minute < 60 && 0 <= second < 60
    ensures ToUtc(FromDays(j, hour, minute, second), true) == FieldsFor(j, x, hour, minute, second)
  {
    var s := SecondOfDay(j, hour, minute, second);
    FieldsOf(j, x, s, hour, minute, second);
    ToUtcAt(FromDays(j, hour, minute, second), j, s, true);
  }

  lemma SecondOfDay(j: int, hour: int, minute: int, second: int) returns (s: int)
    requires 0 <= hour < 24 && 0 <= minute < 60 && 0 <= second < 60
    ensures 0 <= s < SECONDS_PER_DAY
    ensures s / 60 / 60 == hour && s / 60 % 60 == minute && s % 60 == second
    ensures FromDays(j, hour, minute, second) == (j - JULIAN_DAY_OF_1970) * SECONDS_PER_DAY + s
  {
    s := hour * 3600 + minute * 60 + second;
    assert s / 60 == hour * 60 + minute;
  }

  /** The week day is the true one, counted from Sunday, exactly when the Julian day number
      is at least -1 or one less than a multiple of seven: C++ rounds toward zero. */
  lemma WeekDayRight(j: int)
    ensures WeekDay(j) == (j + 1) % 7 <==> j >= -1 || (j + 1) % 7 == 0
  {
  }

  /** A date in range whose week day comes out wrong: 22 November of the year -4714. */
  lemma WeekDayWrong()
    ensures InRange(YearMonthDay(-4714, 11, 22)) && WeekDay(Jdn(YearMonthDay(-4714, 11, 22))) < 0
  {
  }

  /** Where the counting of days is anchored: 1 January 1970 is Julian day 2440588, a Thursday. */
  lemma AnchorDay()
    ensures Jdn(YearMonthDay(1970, 1, 1)) == JULIAN_DAY_OF_1970 == 2440588 && WeekDay(2440588) == 4
  {
  }

  /** And the time 0 is its midnight: the first day of 1970, with each of its seconds. */
  lemma Anchor(t: int, first: YearMonthDay, hour: int, minute: int, second: int)
    requires 0 <= hour < 24 && 0 <= minute < 60 && 0 <= second < 60
    requires t == hour * 3600 + minute * 60 + second && first == YearMonthDay(1970, 1, 1)
    ensures ToUtc(t, true) == Tm(first.year - 1900, first.month - 1, first.day, hour, minute, second, 4, 0)
  {
    AnchorDay();
    var j := Jdn(first);
    AnchorBack(j, first);
    AnchorTime(j, t, hour, minute, second);
    DaysBack(j, first, hour, minute, second);
    AnchorFields(j, first, hour, minute, second);
  }

  lemma AnchorBack(j: int, first: YearMonthDay)
    requires InRange(first) && j == Jdn(first)
    ensures GetYearMonthDay(j) == first
  {
    DateRoundTrip(first);
  }

  lemma AnchorTime(j: int, t: int, hour: int, minute: int, second: int)
    requires j == JULIAN_DAY_OF_1970 && t == hour * 3600 + minute * 60 + second
    ensures FromDays(j, hour, minute, second) == t
  {
  }

  lemma AnchorFields(j: int, first: YearMonthDay, hour: int, minute: int, second: int)
    requires first == YearMonthDay(1970, 1, 1) && j == Jdn(first) && WeekDay(j) == 4
    ensures FieldsFor(j, first, hour, minute, second) == Tm(first.year - 1900, first.month - 1, first.day,
                                                            hour, minute, second, 4, 0)
  {
  }
}
