/** Julian day numbers of the proleptic Gregorian calendar
    (examples/depth_feed_publisher/quickfix/FieldTypes.h, `julianDate` and `getYMD`). All
    divisions are of numbers that are not negative, where truncation is no issue. */
module JulianDates {

  /** The first day number whose intermediate results are not negative. */
  const FIRST_DAY: int := -32044

  datatype Date = Date(year: int, month: int, day: int)

  predicate Leap(year: int) {
    year % 4 == 0 && (year % 100 != 0 || year % 400 == 0)
  }

  function DaysIn(year: int, month: int): int {
    if month == 2 then (if Leap(year) then 29 else 28)
    else if month == 4 || month == 6 || month == 9 || month == 11 then 30
    else 31
  }

  /** A date of the calendar, from 1 March of the year -4800 on. */
  predicate ValidDate(d: Date) {
    && 1 <= d.month <= 12 && 1 <= d.day <= DaysIn(d.year, d.month)
    && (d.year > -4800 || (d.year == -4800 && d.month > 2))
  }

  function JulianDate(date: Date): int {
    var a := (14 - date.month) / 12;
    var y := date.year + 4800 - a;
    var m := date.month + 12 * a - 3;
    date.day + (153 * m + 2) / 5 + y * 365 + y / 4 - y / 100 + y / 400 - 32045
  }

  function GetYMD(jday: int): Date {
    var a := jday + 32044;
    var b := (4 * a + 3) / 146097;
    var c := a - (b * 146097) / 4;
    var d := (4 * c + 3) / 1461;
    var e := c - (1461 * d) / 4;
    var m := (5 * e + 2) / 153;
    Date(b * 100 + d - 4800 + m / 10, m + 3 - 12 * (m / 10), e - (153 * m + 2) / 5 + 1)
  }

  // ---- Years that begin in March ----

  /** Days before the month, counted from March. */
  function MonthStart(m: int): int {
    (153 * m + 2) / 5
  }

  /** Days before the year, counted from 1 March of -4800: centuries, then years. */
  function YearStart(b: int, d: int): int {
    36524 * b + b / 4 + 365 * d + d / 4
  }

  /** The length of the March year with century `b` and year `d`. */
  function YearLength(b: int, d: int): int {
    if d % 4 == 3 && (d != 99 || b % 4 == 3) then 366 else 365
  }

  /** A day of a March year: century, year, month and day, all counted from zero. */
  predicate MarchDay(b: int, d: int, m: int, n: int) {
    && 0 <= b && 0 <= d < 100 && 0 <= m < 12 && 0 <= n
    && n < MonthStart(m + 1) - MonthStart(m)
    && MonthStart(m) + n < YearLength(b, d)
  }

  function FromMarch(b: int, d: int, m: int, n: int): Date {
    Date(b * 100 + d - 4800 + m / 10, m + 3 - 12 * (m / 10), n + 1)
  }

  lemma MonthStarts()
    ensures MonthStart(0) == 0 && MonthStart(1) == 31 && MonthStart(2) == 61 && MonthStart(3) == 92
    ensures MonthStart(4) == 122 && MonthStart(5) == 153 && MonthStart(6) == 184 && MonthStart(7) == 214
    ensures MonthStart(8) == 245 && MonthStart(9) == 275 && MonthStart(10) == 306 && MonthStart(11) == 337
    ensures MonthStart(12) == 367
  {
  }

  /** The year starts written over the whole year number. */
  lemma YearStartIs(b: int, d: int)
    requires 0 <= b && 0 <= d < 100
    ensures var y := 100 * b + d; y * 365 + y / 4 - y / 100 + y / 400 == YearStart(b, d)
  {
    var y := 100 * b + d;
    assert y / 4 == 25 * b + d / 4;
    assert y / 100 == b;
    assert y / 400 == b / 4 by {
      assert b == 4 * (b / 4) + b % 4;
      assert y == 400 * (b / 4) + (100 * (b % 4) + d);
    }
  }

  lemma JulianOfMarch(b: int, d: int, m: int, n: int)
    requires MarchDay(b, d, m, n)
    ensures JulianDate(FromMarch(b, d, m, n)) == n + MonthStart(m) + YearStart(b, d) - 32044
  {
    YearStartIs(b, d);
    var date := FromMarch(b, d, m, n);
    var a := (14 - date.month) / 12;
    assert m < 10 ==> m / 10 == 0 && a == 0;
    assert m >= 10 ==> m / 10 == 1 && a == 1;
  }

  lemma CenturyFound(b: int, c: int)
    requires 0 <= b && 0 <= c && (c <= 36523 || (c == 36524 && b % 4 == 3))
    ensures var a := 36524 * b + b / 4 + c;
            (4 * a + 3) / 146097 == b && a - (b * 146097) / 4 == c
  {
    var a := 36524 * b + b / 4 + c;
    assert b == 4 * (b / 4) + b % 4;
    assert 4 * a + 3 == 146097 * b + (4 * c + 3 - b % 4);
    assert b * 146097 == 4 * (36524 * b + b / 4) + b % 4;
  }

  lemma YearFound(d: int, r: int)
    requires 0 <= d && 0 <= r && (r <= 364 || (r == 365 && d % 4 == 3))
    ensures var c := 365 * d + d / 4 + r;
            (4 * c + 3) / 1461 == d && c - (1461 * d) / 4 == r
  {
    var c := 365 * d + d / 4 + r;
    assert d == 4 * (d / 4) + d % 4;
    assert 4 * c + 3 == 1461 * d + (4 * r + 3 - d % 4);
    assert 1461 * d == 4 * (365 * d + d / 4) + d % 4;
  }

  lemma MonthFound(m: int, n: int)
    requires 0 <= m < 12 && 0 <= n < MonthStart(m + 1) - MonthStart(m)
    ensures (5 * (MonthStart(m) + n) + 2) / 153 == m
  {
    MonthStarts();
  }

  lemma MarchBounds(b: int, d: int, m: int, n: int)
    requires MarchDay(b, d, m, n)
    ensures var r := MonthStart(m) + n;
            var c := 365 * d + d / 4 + r;
            && 0 <= r && (r <= 364 || (r == 365 && d % 4 == 3))
            && 0 <= c && (c <= 36523 || (c == 36524 && b % 4 == 3))
  {
    assert d == 4 * (d / 4) + d % 4;
  }

  lemma YMDParts(jday: int, b: int, d: int, m: int, c: int, r: int)
    requires var a := jday + 32044; (4 * a + 3) / 146097 == b && a - (b * 146097) / 4 == c
    requires (4 * c + 3) / 1461 == d && c - (1461 * d) / 4 == r && (5 * r + 2) / 153 == m
    ensures GetYMD(jday) == Date(b * 100 + d - 4800 + m / 10, m + 3 - 12 * (m / 10), r - MonthStart(m) + 1)
  {
  }

  /** The inverse, on a day of a March year. */
  lemma MarchFound(b: int, d: int, m: int, n: int)
    requires MarchDay(b, d, m, n)
    ensures GetYMD(n + MonthStart(m) + YearStart(b, d) - 32044) == FromMarch(b, d, m, n)
  {
    hide GetYMD, YearLength, MonthStart;
    var r := MonthStart(m) + n;
    var c := 365 * d + d / 4 + r;
    MarchBounds(b, d, m, n);
    CenturyFound(b, c);
    YearFound(d, r);
    MonthFound(m, n);
    YMDParts(n + MonthStart(m) + YearStart(b, d) - 32044, b, d, m, c, r);
  }

  // ---- Calendar dates are days of March years ----

  lemma By4(x: int, q: int, r: int)
    requires 0 <= r < 4 && x == 4 * q + r
    ensures x % 4 == r
  {
  }

  lemma By100(x: int, q: int, r: int)
    requires 0 <= r < 100 && x == 100 * q + r
    ensures x % 100 == r
  {
  }

  lemma By400(x: int, q: int, r: int)
    requires 0 <= r < 400 && x == 400 * q + r
    ensures x % 400 == r
  {
  }

  /** A year that is no century is a leap year every four years. */
  lemma LeapWithinCentury(b: int, e: int)
    requires 0 < e < 100
    ensures Leap(100 * b + e - 4800) <==> e % 4 == 0
  {
    By4(100 * b + e - 4800, 25 * b - 1200 + e / 4, e % 4);
    By100(100 * b + e - 4800, b - 48, e);
  }

  /** A century is one every four centuries. */
  lemma LeapCentury(c: int)
    ensures Leap(100 * c - 4800) <==> c % 4 == 0
  {
    By4(100 * c - 4800, 25 * c - 1200, 0);
    By100(100 * c - 4800, c - 48, 0);
    By400(100 * c - 4800, c / 4 - 12, 100 * (c % 4));
  }

  lemma YearLengthIsLeap(b: int, d: int)
    requires 0 <= b && 0 <= d < 100
    ensures YearLength(b, d) == 366 <==> Leap(b * 100 + d - 4800 + 1)
  {
    hide Leap;
    assert b * 100 + d - 4800 + 1 == 100 * b + (d + 1) - 4800;
    if d == 99 {
      assert 100 * b + (d + 1) - 4800 == 100 * (b + 1) - 4800;
      LeapCentury(b + 1);
    } else {
      LeapWithinCentury(b, d + 1);
    }
  }

  lemma DateIsMarchDay(date: Date) returns (b: int, d: int, m: int, n: int)
    requires ValidDate(date)
    ensures MarchDay(b, d, m, n) && FromMarch(b, d, m, n) == date
  {
    var a := if date.month <= 2 then 1 else 0;
    var y := date.year + 4800 - a;
    b, d, m, n := y / 100, y % 100, date.month + 12 * a - 3, date.day - 1;
    MonthStarts();
    YearLengthIsLeap(b, d);
    assert y == 100 * b + d;
  }

  lemma MarchDayIsDate(b: int, d: int, m: int, n: int)
    requires MarchDay(b, d, m, n)
    ensures ValidDate(FromMarch(b, d, m, n))
  {
    MonthStarts();
    YearLengthIsLeap(b, d);
  }

  /** Converting a date to its day number and back gives the date. */
  lemma DateRoundTrip(date: Date)
    requires ValidDate(date)
    ensures JulianDate(date) >= FIRST_DAY && GetYMD(JulianDate(date)) == date
  {
    hide JulianDate, GetYMD, ValidDate, FromMarch;
    var b, d, m, n := DateIsMarchDay(date);
    JulianOfMarch(b, d, m, n);
    MarchFound(b, d, m, n);
  }

  // ---- Every day number is the number of a date ----

  /** The day number taken apart as `getYMD` does. */
  lemma DayIsMarchDay(jday: int) returns (b: int, d: int, m: int, n: int)
    requires jday >= FIRST_DAY
    ensures MarchDay(b, d, m, n) && jday == n + MonthStart(m) + YearStart(b, d) - 32044
  {
    var a := jday + 32044;
    var c: int, r: int;
    b, c := CenturyOf(a);
    d, r := YearOf(b, c);
    m, n := MonthOf(r);
  }

  lemma CenturyOf(a: int) returns (b: int, c: int)
    requires a >= 0
    ensures 0 <= b && a == 36524 * b + b / 4 + c && 0 <= c && (c <= 36523 || (c == 36524 && b % 4 == 3))
  {
    b := (4 * a + 3) / 146097;
    c := a - 36524 * b - b / 4;
    assert b == 4 * (b / 4) + b % 4;
    assert 146097 * b <= 4 * a + 3 < 146097 * b + 146097;
    assert 4 * c == 4 * a - 146096 * b - 4 * (b / 4);
  }

  lemma YearOf(b: int, c: int) returns (d: int, r: int)
    requires 0 <= b && 0 <= c && (c <= 36523 || (c == 36524 && b % 4 == 3))
    ensures 0 <= d < 100 && c == 365 * d + d / 4 + r && 0 <= r < YearLength(b, d)
  {
    d := (4 * c + 3) / 1461;
    r := c - 365 * d - d / 4;
    assert d == 4 * (d / 4) + d % 4;
    assert 1461 * d <= 4 * c + 3 < 1461 * d + 1461;
    assert 4 * r == 4 * c - 1460 * d - 4 * (d / 4);
  }

  lemma MonthOf(r: int) returns (m: int, n: int)
    requires 0 <= r < 366
    ensures 0 <= m < 12 && 0 <= n < MonthStart(m + 1) - MonthStart(m) && r == MonthStart(m) + n
  {
    MonthStarts();
    m := (5 * r + 2) / 153;
    n := r - MonthStart(m);
  }

  /** Converting a day number to a date and back gives the day number; the date is one of the
      calendar. */
  lemma DayRoundTrip(jday: int)
    requires jday >= FIRST_DAY
    ensures ValidDate(GetYMD(jday)) && JulianDate(GetYMD(jday)) == jday
  {
    var b, d, m, n := DayIsMarchDay(jday);
    MarchFound(b, d, m, n);
    MarchDayIsDate(b, d, m, n);
    JulianOfMarch(b, d, m, n);
  }

  // ---- Later dates have larger numbers ----

  predicate Earlier(a: Date, b: Date) {
    || a.year < b.year
    || (a.year == b.year && a.month < b.month)
    || (a.year == b.year && a.month == b.month && a.day < b.day)
  }

  /** A March year ends where the next one starts. */
  lemma YearsFollow(b: int, d: int, b': int, d': int)
    requires 0 <= b && 0 <= d < 100 && 0 <= b' && 0 <= d' < 100 && 100 * b + d < 100 * b' + d'
    ensures YearStart(b, d) + YearLength(b, d) <= YearStart(b', d')
  {
    assert b == 4 * (b / 4) + b % 4 && b' == 4 * (b' / 4) + b' % 4;
    assert d == 4 * (d / 4) + d % 4 && d' == 4 * (d' / 4) + d' % 4;
    if b < b' {
      assert b + 1 <= b' ==> 36524 * b + b / 4 + 36524 + (if b % 4 == 3 then 1 else 0) <= 36524 * b' + b' / 4;
      assert 365 * d + d / 4 + YearLength(b, d) <= 36524 + (if b % 4 == 3 then 1 else 0);
    }
  }

  lemma LaterIsLarger(a: Date, b: Date)
    requires ValidDate(a) && ValidDate(b) && Earlier(a, b)
    ensures JulianDate(a) < JulianDate(b)
  {
    hide JulianDate, GetYMD, ValidDate, YearStart;
    var b1, d1, m1, n1 := DateIsMarchDay(a);
    var b2, d2, m2, n2 := DateIsMarchDay(b);
    JulianOfMarch(b1, d1, m1, n1);
    JulianOfMarch(b2, d2, m2, n2);
    MonthStarts();
    if 100 * b1 + d1 < 100 * b2 + d2 {
      YearsFollow(b1, d1, b2, d2);
    } else {
      assert 100 * b1 + d1 == 100 * b2 + d2;
      assert b1 == b2 && d1 == d2;
      assert m1 < m2 || (m1 == m2 && n1 < n2);
      assert m1 < m2 ==> MonthStart(m1 + 1) <= MonthStart(m2);
    }
  }

  /** Day numbers order dates as the calendar does, both ways. */
  lemma OrderedAsDates(a: Date, b: Date)
    requires ValidDate(a) && ValidDate(b)
    ensures JulianDate(a) < JulianDate(b) <==> Earlier(a, b)
  {
    if Earlier(a, b) {
      LaterIsLarger(a, b);
    } else if Earlier(b, a) {
      LaterIsLarger(b, a);
    }
  }

  const MAX_INT: int := 2147483647
  /** The last day number whose intermediate results fit a 32-bit integer. */
  const LAST_DAY: int := 536838867

  predicate Within(x: int) {
    -MAX_INT - 1 <= x <= MAX_INT
  }

  /** No value `getYMD` computes on the way leaves the 32-bit range. */
  predicate YMDFits(jday: int) {
    var a := jday + 32044;
    var b := (4 * a + 3) / 146097;
    var c := a - (b * 146097) / 4;
    var d := (4 * c + 3) / 1461;
    var e := c - (1461 * d) / 4;
    var m := (5 * e + 2) / 153;
    && Within(4 * a) && Within(4 * a + 3) && Within(b * 146097) && CenturyFits(a, b, c) && YearFits(c, d, e) &&
       MonthFits(b, d, e, m)
  }

  predicate CenturyFits(a: int, b: int, c: int) {
    Within(a) && Within(b) && Within((b * 146097) / 4) && Within(c)
  }

  predicate YearFits(c: int, d: int, e: int) {
    Within(4 * c) && Within(4 * c + 3) && Within(d) && Within(1461 * d) && Within((1461 * d) / 4) && Within(e)
  }

  predicate MonthFits(b: int, d: int, e: int, m: int) {
    && Within(5 * e) && Within(5 * e + 2) && Within(m)
    && Within(153 * m) && Within(153 * m + 2) && Within((153 * m + 2) / 5)
    && Within(e - (153 * m + 2) / 5) && Within(e - (153 * m + 2) / 5 + 1)
    && Within(m + 3) && Within(m / 10) && Within(12 * (m / 10)) && Within(m + 3 - 12 * (m / 10))
    && Within(b * 100) && Within(b * 100 + d) && Within(b * 100 + d - 4800) && Within(b * 100 + d - 4800 + m / 10)
  }

  /** No value `julianDate` computes on the way does. */
  predicate JulianFits(date: Date) {
    var a := (14 - date.month) / 12;
    var y := date.year + 4800 - a;
    var m := date.month + 12 * a - 3;
    && Within(14 - date.month) && Within(a) && Within(date.year + 4800) && Within(y)
    && Within(12 * a) && Within(date.month + 12 * a) && Within(m) && SumFits(date.day, y, m)
  }

  predicate SumFits(day: int, y: int, m: int) {
    var s := day + (153 * m + 2) / 5;
    && Within(153 * m) && Within(153 * m + 2) && Within((153 * m + 2) / 5) && Within(s)
    && Within(y * 365) && Within(s + y * 365) && Within(y / 4) && Within(s + y * 365 + y / 4)
    && Within(y / 100) && Within(s + y * 365 + y / 4 - y / 100) && Within(y / 400) &&
       Within(s + y * 365 + y / 4 - y / 100 + y / 400)
    && Within(s + y * 365 + y / 4 - y / 100 + y / 400 - 32045)
  }

  lemma YMDBounds(jday: int, a: int, b: int, c: int, d: int, e: int, m: int)
    requires FIRST_DAY <= jday <= LAST_DAY && a == jday + 32044 && b == (4 * a + 3) / 146097
    requires c == a - (b * 146097) / 4
    requires d == (4 * c + 3) / 1461 && e == c - (1461 * d) / 4 && m == (5 * e + 2) / 153
    ensures 0 <= b <= 14699 && 0 <= c <= 36524 && 0 <= d <= 99 && 0 <= e <= 365 && 0 <= m <= 11
  {
  }

  lemma BoundedFits(b: int, c: int, d: int, e: int, m: int)
    requires 0 <= b <= 14699 && 0 <= c <= 36524 && 0 <= d <= 99 && 0 <= e <= 365 && 0 <= m <= 11
    ensures Within(b * 146097) && Within((b * 146097) / 4) && YearFits(c, d, e) && MonthFits(b, d, e, m)
  {
  }

  /** `getYMD` stays within the range exactly up to the last day. */
  lemma FitsInt(jday: int)
    requires FIRST_DAY <= jday
    ensures jday <= LAST_DAY <==> YMDFits(jday)
  {
    hide YearFits, MonthFits;
    var a := jday + 32044;
    var b := (4 * a + 3) / 146097;
    var c := a - (b * 146097) / 4;
    var d := (4 * c + 3) / 1461;
    var e := c - (1461 * d) / 4;
    var m := (5 * e + 2) / 153;
    if jday <= LAST_DAY {
      YMDBounds(jday, a, b, c, d, e, m);
      BoundedFits(b, c, d, e, m);
    }
  }

  lemma JulianBounds(date: Date, y: int, m: int)
    requires ValidDate(date) && JulianDate(date) <= LAST_DAY
    requires y == date.year + 4800 - (14 - date.month) / 12 && m == date.month + 12 * ((14 - date.month) / 12) - 3
    ensures 0 <= m <= 11 && 0 <= y <= 1500000
  {
    assert 0 <= (14 - date.month) / 12 <= 1;
    assert 0 <= y / 4 - y / 100 + y / 400;
  }

  lemma BoundedSumFits(day: int, y: int, m: int)
    requires 1 <= day <= 31 && 0 <= m <= 11 && 0 <= y <= 1500000
    ensures SumFits(day, y, m)
  {
  }

  /** `julianDate` does on the date of every such day. */
  lemma JulianFitsInt(date: Date)
    requires ValidDate(date) && JulianDate(date) <= LAST_DAY
    ensures JulianFits(date)
  {
    hide SumFits, JulianDate, Leap;
    var a := (14 - date.month) / 12;
    var y, m := date.year + 4800 - a, date.month + 12 * a - 3;
    JulianBounds(date, y, m);
    BoundedSumFits(date.day, y, m);
  }
}
