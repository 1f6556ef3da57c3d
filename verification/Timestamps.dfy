/** UTC timestamps as FIX text: printing, reading, and the round trip
    (examples/depth_feed_publisher/quickfix/FieldConvertors.h, `UtcTimeStampConvertor`, and
    FieldTypes.h, `DateTime`). */
module Timestamps {
  import opened Options
  import opened JulianDates
  import opened IntText

  const SECONDS_PER_HOUR: int := 3600
  const SECONDS_PER_MIN: int := 60
  const MINUTES_PER_HOUR: int := 60
  const NANOS_PER_SEC: int := 1000000000
  const NANOS_PER_DAY: int := 86400000000000

  /** A Julian day number and the nanoseconds since midnight. */
  datatype DateTime = DateTime(date: int, time: int)

  /** Nanoseconds in one unit of a fraction with this many digits. */
  function PrecisionFactor(precision: nat): nat
    requires precision <= 9
  {
    Power10(9 - precision)
  }

  function MakeHMS(hour: int, minute: int, second: int, nanos: int): int {
    NANOS_PER_SEC * (SECONDS_PER_HOUR * hour + SECONDS_PER_MIN * minute + second) + nanos
  }

  datatype TimeOfDay = TimeOfDay(hour: int, minute: int, second: int, fraction: int)

  function GetHMS(time: int, precision: nat): TimeOfDay
    requires time >= 0 && precision <= 9
  {
    var ticks := time / NANOS_PER_SEC;
    TimeOfDay(ticks / SECONDS_PER_HOUR, ticks / SECONDS_PER_MIN % MINUTES_PER_HOUR, ticks % SECONDS_PER_MIN,
              time % NANOS_PER_SEC / PrecisionFactor(precision))
  }

  /** The time without what a fraction of this many digits cannot show. */
  function Truncated(time: int, precision: nat): int
    requires time >= 0 && precision <= 9
  {
    time - time % PrecisionFactor(precision)
  }

  lemma PowersOfTen()
    ensures Power10(0) == 1 && Power10(1) == 10 && Power10(2) == 100 && Power10(3) == 1000 && Power10(4) == 10000
    ensures Power10(5) == 100000 && Power10(6) == 1000000 && Power10(7) == 10000000 && Power10(8) == 100000000
    ensures Power10(9) == 1000000000
  {
  }

  lemma MulAtLeast(f: int, k: int)
    requires f > 0
    ensures k >= 1 ==> f * k >= f
    ensures k >= 0 ==> f * k >= 0
  {
  }

  lemma SameQuotient(f: int, q: int, b: int, q': int, b': int)
    requires f > 0 && f * q + b == f * q' + b' && 0 <= b < f && 0 <= b' < f
    ensures q == q' && b == b'
  {
    assert f * (q' - q) == f * q' - f * q;
    assert f * (q - q') == f * q - f * q';
    MulAtLeast(f, q' - q);
    MulAtLeast(f, q - q');
  }

  lemma Remainder(n: int, f: int, q: int, b: int)
    requires f > 0 && n == f * q + b && 0 <= b < f
    ensures n / f == q && n % f == b
  {
    SameQuotient(f, q, b, n / f, n % f);
  }

  /** What is left of `n` in the larger unit, counted in the smaller one. */
  lemma Units(n: int, f: int, g: int)
    requires f > 0 && g > 0 && n >= 0 && f * g > 0
    ensures var r := n % (f * g); r / f * f == r - n % f && 0 <= r / f < g
  {
    var m := f * g;
    var q, r := n / m, n % m;
    var a, b := r / f, r % f;
    assert n == m * q + r && r == f * a + b;
    assert n == f * (g * q + a) + b by {
      assert f * (g * q + a) == f * g * q + f * a;
    }
    Remainder(n, f, g * q + a, b);
    BelowProduct(f, g, a, b);
  }

  lemma BelowProduct(f: int, g: int, a: int, b: int)
    requires f > 0 && 0 <= b < f && 0 <= f * a + b < f * g
    ensures 0 <= a < g
  {
    assert f * (a - g) == f * a - f * g;
    MulAtLeast(f, a - g);
    assert f * (0 - a) == 0 - f * a;
    MulAtLeast(f, 0 - a);
  }

  /** Taking a time apart and putting it together again truncates it. */
  lemma TimeRoundTrip(time: int, precision: nat)
    requires 0 <= time < NANOS_PER_DAY && precision <= 9
    ensures var t := GetHMS(time, precision);
            && 0 <= t.hour < 24 && 0 <= t.minute < 60 && 0 <= t.second < 60 && 0 <= t.fraction < Power10(precision)
            && MakeHMS(t.hour, t.minute, t.second, t.fraction * PrecisionFactor(precision))
               == Truncated(time, precision)
  {
    var f, g := PrecisionFactor(precision), Power10(precision);
    FactorsMultiply(precision);
    Units(time, f, g);
    TicksApart(time / NANOS_PER_SEC);
  }

  lemma FactorsMultiply(precision: nat)
    requires precision <= 9
    ensures PrecisionFactor(precision) * Power10(precision) == NANOS_PER_SEC
  {
    PowersOfTen();
  }

  lemma TicksApart(ticks: int)
    requires 0 <= ticks < 86400
    ensures SECONDS_PER_HOUR * (ticks / SECONDS_PER_HOUR)
            + SECONDS_PER_MIN * (ticks / SECONDS_PER_MIN % MINUTES_PER_HOUR) + ticks % SECONDS_PER_MIN == ticks
    ensures 0 <= ticks / SECONDS_PER_HOUR < 24
  {
  }

  // ---- Printing ----

  predicate Printable(value: DateTime) {
    && value.date >= FIRST_DAY && 0 <= GetYMD(value.date).year <= 9999
    && 0 <= value.time < NANOS_PER_DAY
  }

  lemma Fits(n: int, len: nat)
    requires 0 <= n < Power10(len) && 0 < len
    ensures |Text(n)| <= len && |Padded(n, len)| == len
  {
    DigitsBound(n, len);
  }

  /** Year, month, day, hour, minute and second. */
  function Seconds(d: Date, t: TimeOfDay): string
    requires |Text(d.year)| <= 4 && |Text(d.month)| <= 2 && |Text(d.day)| <= 2
    requires |Text(t.hour)| <= 2 && |Text(t.minute)| <= 2 && |Text(t.second)| <= 2
  {
    Padded(d.year, 4) + Padded(d.month, 2) + Padded(d.day, 2) + "-" + Padded(t.hour, 2) + ":" + Padded(t.minute, 2)
        + ":" + Padded(t.second, 2)
  }

  function WithFraction(s: string, fraction: int, precision: nat): string
    requires |Text(fraction)| <= precision || precision == 0
  {
    if precision == 0 then s else s + "." + Padded(fraction, precision)
  }

  /** All parts fit their cells. */
  lemma PartsFit(value: DateTime, precision: nat)
    requires Printable(value) && precision <= 9
    ensures var d, t := GetYMD(value.date), GetHMS(value.time, precision);
            && 1 <= d.month <= 12 && 1 <= d.day <= 31
            && IsInt32(d.year) && IsInt32(d.month) && IsInt32(d.day) && IsInt32(t.hour) && IsInt32(t.minute) &&
               IsInt32(t.second) && IsInt32(t.fraction)
            && |Text(d.year)| <= 4 && |Text(d.month)| <= 2 && |Text(d.day)| <= 2
            && |Text(t.hour)| <= 2 && |Text(t.minute)| <= 2 && |Text(t.second)| <= 2
            && (precision > 0 ==> |Text(t.fraction)| <= precision)
  {
    hide GetYMD, GetHMS, JulianDate, Text;
    var d, t := GetYMD(value.date), GetHMS(value.time, precision);
    PowersOfTen();
    DayRoundTrip(value.date);
    TimeRoundTrip(value.time, precision);
    Fits(d.year, 4);
    Fits(d.month, 2);
    Fits(d.day, 2);
    Fits(t.hour, 2);
    Fits(t.minute, 2);
    Fits(t.second, 2);
    if precision > 0 {
      Fits(t.fraction, precision);
    }
  }

  function Print(value: DateTime, precision: nat): string
    requires Printable(value) && precision <= 9
  {
    PartsFit(value, precision);
    var d, t := GetYMD(value.date), GetHMS(value.time, precision);
    WithFraction(Seconds(d, t), t.fraction, precision)
  }

  /** A padded number behind what has been written. */
  method PutNumber(buf: array<char>, start: nat, len: nat, t: int, ghost before: string)
    requires start + len <= buf.Length && IsInt32(t) && |Text(t)| <= len && buf[..start] == before
    modifies buf
    ensures buf[..start + len] == before + Padded(t, len)
  {
    hide Padded, Text;
    var p := IntegerToStringPadded(buf, start, len, t);
    assert buf[..start] == before;
    assert buf[..start + len] == buf[..start] + buf[start..start + len];
  }

  method PutMark(buf: array<char>, i: nat, c: char, ghost before: string)
    requires i < buf.Length && buf[..i] == before
    modifies buf
    ensures buf[..i + 1] == before + [c]
  {
    buf[i] := c;
  }

  method Convert(value: DateTime, precision: nat) returns (s: string)
    requires Printable(value) && precision <= 9
    ensures s == Print(value, precision)
  {
    hide GetYMD, GetHMS, Text, Padded;
    PartsFit(value, precision);
    var d, t := GetYMD(value.date), GetHMS(value.time, precision);
    var result := new char[27];
    ghost var text := "";
    PutNumber(result, 0, 4, d.year, text);
    text := text + Padded(d.year, 4);
    PutNumber(result, 4, 2, d.month, text);
    text := text + Padded(d.month, 2);
    PutNumber(result, 6, 2, d.day, text);
    text := text + Padded(d.day, 2);
    PutMark(result, 8, '-', text);
    text := text + "-";
    PutNumber(result, 9, 2, t.hour, text);
    text := text + Padded(t.hour, 2);
    PutMark(result, 11, ':', text);
    text := text + ":";
    PutNumber(result, 12, 2, t.minute, text);
    text := text + Padded(t.minute, 2);
    PutMark(result, 14, ':', text);
    text := text + ":";
    PutNumber(result, 15, 2, t.second, text);
    text := text + Padded(t.second, 2);
    assert "" + Padded(d.year, 4) == Padded(d.year, 4);
    if precision != 0 {
      PutMark(result, 17, '.', text);
      PutNumber(result, 18, precision, t.fraction, text + ".");
      s := result[..18 + precision];
    } else {
      s := result[..17];
    }
  }

  // ---- Reading ----

  /** The layout of a timestamp: digits and separators at their places. */
  predicate WellFormed(s: string) {
    && 17 <= |s| <= 27
    && AllDigits(s[0..4]) && AllDigits(s[4..6]) && AllDigits(s[6..8]) && s[8] == '-'
    && AllDigits(s[9..11]) && s[11] == ':' && AllDigits(s[12..14]) && s[14] == ':' && AllDigits(s[15..17])
    && (|s| > 17 ==> s[17] == '.' && AllDigits(s[18..]))
  }

  /** The numbers the reader accepts: a second may be a leap second, a day is not checked
      against its month. */
  predicate InBounds(month: int, day: int, hour: int, minute: int, second: int) {
    1 <= month <= 12 && 1 <= day <= 31 && hour <= 23 && minute <= 59 && second <= 60
  }

  function Read(s: string): Option<DateTime> {
    if !WellFormed(s) then None
    else
      var year, month, day := ValueOf(s[0..4]), ValueOf(s[4..6]), ValueOf(s[6..8]);
      var hour, minute, second := ValueOf(s[9..11]), ValueOf(s[12..14]), ValueOf(s[15..17]);
      if !InBounds(month, day, hour, minute, second) then None
      else
        var nanos := if |s| <= 18 then 0 else ValueOf(s[18..]) * PrecisionFactor(|s| - 18);
        Some(DateTime(JulianDate(Date(year, month, day)), MakeHMS(hour, minute, second, nanos)))
  }

  lemma {:induction false} DigitsSplit(a: string, b: string)
    ensures AllDigits(a + b) <==> AllDigits(a) && AllDigits(b)
  {
    assert forall k :: 0 <= k < |a| ==> (a + b)[k] == a[k];
    assert forall k :: 0 <= k < |b| ==> (a + b)[|a| + k] == b[k];
  }

  /** Where the parts of a printed timestamp are. */
  lemma Sliced(y: string, m: string, d: string, h: string, n: string, c: string, tail: string)
    requires |y| == 4 && |m| == |d| == |h| == |n| == |c| == 2
    ensures var s := y + m + d + "-" + h + ":" + n + ":" + c + tail;
            && |s| == 17 + |tail|
            && s[0..4] == y && s[4..6] == m && s[6..8] == d && s[8] == '-' && s[9..11] == h && s[11] == ':'
            && s[12..14] == n && s[14] == ':' && s[15..17] == c && s[17..] == tail
  {
  }

  lemma SecondsValues(date: Date, t: TimeOfDay)
    requires |Text(date.year)| <= 4 && |Text(date.month)| <= 2 && |Text(date.day)| <= 2
    requires |Text(t.hour)| <= 2 && |Text(t.minute)| <= 2 && |Text(t.second)| <= 2
    requires date.year >= 0 && date.month >= 0 && date.day >= 0 && t.hour >= 0 && t.minute >= 0 && t.second >= 0
    ensures AllDigits(Padded(date.year, 4)) && ValueOf(Padded(date.year, 4)) == date.year
    ensures AllDigits(Padded(date.month, 2)) && ValueOf(Padded(date.month, 2)) == date.month
    ensures AllDigits(Padded(date.day, 2)) && ValueOf(Padded(date.day, 2)) == date.day
    ensures AllDigits(Padded(t.hour, 2)) && ValueOf(Padded(t.hour, 2)) == t.hour
    ensures AllDigits(Padded(t.minute, 2)) && ValueOf(Padded(t.minute, 2)) == t.minute
    ensures AllDigits(Padded(t.second, 2)) && ValueOf(Padded(t.second, 2)) == t.second
  {
    hide Text, Padded;
    PaddedValue(date.year, 4);
    PaddedValue(date.month, 2);
    PaddedValue(date.day, 2);
    PaddedValue(t.hour, 2);
    PaddedValue(t.minute, 2);
    PaddedValue(t.second, 2);
  }

  /** The tail after the seconds: nothing, or a point and the fraction. */
  function Tail(fraction: int, precision: nat): string
    requires |Text(fraction)| <= precision || precision == 0
  {
    if precision == 0 then "" else "." + Padded(fraction, precision)
  }

  lemma PrintedParts(value: DateTime, precision: nat)
    requires Printable(value) && precision <= 9
    ensures var d, t, s := GetYMD(value.date), GetHMS(value.time, precision), Print(value, precision);
            && precision <= 9 && (precision > 0 ==> |Text(t.fraction)| <= precision)
            && |Text(d.year)| <= 4 && |Text(d.month)| <= 2 && |Text(d.day)| <= 2
            && |Text(t.hour)| <= 2 && |Text(t.minute)| <= 2 && |Text(t.second)| <= 2
            && |s| == (if precision == 0 then 17 else 18 + precision)
            && s[0..4] == Padded(d.year, 4) && s[4..6] == Padded(d.month, 2) && s[6..8] == Padded(d.day, 2) &&
               s[8] == '-'
            && s[9..11] == Padded(t.hour, 2) && s[11] == ':' && s[12..14] == Padded(t.minute, 2) && s[14] == ':' &&
               s[15..17] == Padded(t.second, 2)
            && s[17..] == Tail(t.fraction, precision)
  {
    hide GetYMD, GetHMS, Text;
    PartsFit(value, precision);
    var d, t := GetYMD(value.date), GetHMS(value.time, precision);
    Sliced(Padded(d.year, 4), Padded(d.month, 2), Padded(d.day, 2), Padded(t.hour, 2), Padded(t.minute, 2),
           Padded(t.second, 2), Tail(t.fraction, precision));
    if precision == 0 {
      assert Seconds(d, t) + "" == Seconds(d, t);
    } else {
      assert Seconds(d, t) + ("." + Padded(t.fraction, precision))
             == Seconds(d, t) + "." + Padded(t.fraction, precision);
    }
  }

  lemma TailValue(s: string, fraction: int, precision: nat)
    requires fraction >= 0 && (precision > 0 ==> |Text(fraction)| <= precision)
    requires |s| == (if precision == 0 then 17 else 18 + precision)
    requires s[17..] == Tail(fraction, precision)
    ensures precision > 0 ==> s[17] == '.' && AllDigits(s[18..]) && ValueOf(s[18..]) == fraction
  {
    hide Text;
    if precision > 0 {
      assert s[17] == s[17..][0] && s[18..] == s[17..][1..] == Padded(fraction, precision);
      PaddedValue(fraction, precision);
    }
  }

  /** Reading a printed timestamp gives the same day, and the time to the printed precision. */
  lemma RoundTrip(value: DateTime, precision: nat)
    requires Printable(value) && precision <= 9
    ensures Read(Print(value, precision)) == Some(DateTime(value.date, Truncated(value.time, precision)))
  {
    hide GetYMD, GetHMS, JulianDate, MakeHMS, Text, Padded, Print, Truncated, ValueOf;
    var d, t, s := GetYMD(value.date), GetHMS(value.time, precision), Print(value, precision);
    PartsFit(value, precision);
    DayRoundTrip(value.date);
    TimeRoundTrip(value.time, precision);
    PrintedParts(value, precision);
    SecondsValues(d, t);
    TailValue(s, t.fraction, precision);
    NoFraction(t.fraction, precision);
  }

  lemma NoFraction(fraction: int, precision: nat)
    requires 0 <= fraction < Power10(precision)
    ensures precision == 0 ==> fraction == 0
  {
  }

  method CheckDigits(value: string, from: nat, count: nat) returns (ok: bool)
    requires from + count <= |value|
    ensures ok == AllDigits(value[from..from + count])
  {
    var c := 0;
    while c < count
      invariant c <= count && forall k :: from <= k < from + c ==> IsDigit(value[k])
    {
      if !IsDigit(value[from + c]) {
        assert value[from..from + count][c] == value[from + c];
        return false;
      }
      c := c + 1;
    }
    return true;
  }

  lemma DigitAppended(value: string, from: nat, i: nat)
    requires from <= i < |value|
    requires AllDigits(value[from..i]) && IsDigit(value[i])
    ensures AllDigits(value[from..i + 1])
    ensures ValueOf(value[from..i + 1]) == 10 * ValueOf(value[from..i]) + DigitValue(value[i])
  {
    var seen := value[from..i + 1];
    assert seen[..|seen| - 1] == value[from..i] && seen[|seen| - 1] == value[i];
  }

  /** The digits read so far, one more at a time. */
  method ReadDigits(value: string, from: nat, to: nat) returns (n: nat)
    requires from <= to <= |value| && AllDigits(value[from..to])
    ensures n == ValueOf(value[from..to])
  {
    n := 0;
    var i := from;
    assert value[from..from] == "";
    while i < to
      invariant from <= i <= to && AllDigits(value[from..i]) && n == ValueOf(value[from..i])
    {
      assert value[i] == value[from..to][i - from];
      DigitAppended(value, from, i);
      n := 10 * n + DigitValue(value[i]);
      i := i + 1;
    }
  }

  lemma DateDigits(s: string)
    requires |s| >= 8
    ensures AllDigits(s[0..8]) <==> AllDigits(s[0..4]) && AllDigits(s[4..6]) && AllDigits(s[6..8])
  {
    var year, month, day := s[0..4], s[4..6], s[6..8];
    assert s[0..8] == year + month + day;
    DigitsSplit(year + month, day);
    DigitsSplit(year, month);
  }

  method CheckLayout(value: string) returns (ok: bool)
    requires 17 <= |value| <= 27
    ensures ok <==> WellFormed(value[..17])
  {
    var date := CheckDigits(value, 0, 8);
    var hour := CheckDigits(value, 9, 2);
    var minute := CheckDigits(value, 12, 2);
    var second := CheckDigits(value, 15, 2);
    ok := date && value[8] == '-' && hour && value[11] == ':' && minute && value[14] == ':' && second;
    var s := value[..17];
    SlicesOf(value, 17, 0, 8);
    SlicesOf(value, 17, 9, 11);
    SlicesOf(value, 17, 12, 14);
    SlicesOf(value, 17, 15, 17);
    DateDigits(s);
  }

  lemma SlicesOf(s: string, n: nat, from: nat, to: nat)
    requires from <= to <= n <= |s|
    ensures s[..n][from..to] == s[from..to]
  {
  }

  /** `None` stands for the conversion error. */
  method ConvertFrom(value: string) returns (r: Option<DateTime>)
    ensures r == Read(value)
  {
    hide JulianDate, MakeHMS, ValueOf;
    if |value| < 17 || |value| > 27 {
      return None;
    }
    var ok := CheckLayout(value);
    var s := value[..17];
    assert s[0..4] == value[0..4] && s[4..6] == value[4..6] && s[6..8] == value[6..8];
    assert s[9..11] == value[9..11] && s[12..14] == value[12..14] && s[15..17] == value[15..17];
    if !ok {
      return None;
    }
    var year := ReadDigits(value, 0, 4);
    var month := ReadDigits(value, 4, 6);
    var day := ReadDigits(value, 6, 8);
    var hour := ReadDigits(value, 9, 11);
    var minute := ReadDigits(value, 12, 14);
    var second := ReadDigits(value, 15, 17);
    if !InBounds(month, day, hour, minute, second) {
      return None;
    }
    var date := JulianDate(Date(year, month, day));
    if |value| == 17 {
      return Some(DateTime(date, MakeHMS(hour, minute, second, 0)));
    }
    if value[17] != '.' {
      return None;
    }
    var digits := CheckDigits(value, 18, |value| - 18);
    assert value[18..18 + (|value| - 18)] == value[18..];
    if !digits {
      return None;
    }
    var fraction := ReadDigits(value, 18, |value|);
    assert value[18..|value|] == value[18..];
    EmptyFraction(value[18..]);
    return Some(DateTime(date, MakeHMS(hour, minute, second, fraction * PrecisionFactor(|value| - 18))));
  }

  lemma EmptyFraction(s: string)
    requires AllDigits(s)
    ensures s == "" ==> ValueOf(s) == 0
  {
  }

  /** Printing and reading, end to end. */
  method PrintAndRead(value: DateTime, precision: nat) returns (r: Option<DateTime>)
    requires Printable(value) && precision <= 9
    ensures r == Some(DateTime(value.date, Truncated(value.time, precision)))
  {
    var s := Convert(value, precision);
    RoundTrip(value, precision);
    r := ConvertFrom(s);
  }
}
