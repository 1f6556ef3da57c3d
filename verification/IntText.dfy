/** Decimal text of 32-bit integers: how long it is, how it is written backwards into a
    buffer, and how it is read (examples/depth_feed_publisher/quickfix/FieldConvertors.h). */
module IntText {
  const TWO_31: int := 0x8000_0000
  const TWO_32: int := 0x1_0000_0000

  predicate IsInt32(n: int) {
    -TWO_31 <= n < TWO_31
  }

  /** What is left of a number in a signed 32-bit integer. */
  function Wrap(n: int): (w: int)
    ensures IsInt32(w) && (n - w) % TWO_32 == 0
    ensures IsInt32(n) ==> w == n
  {
    (n + TWO_31) % TWO_32 - TWO_31
  }

  function Digit(n: int): char
    requires 0 <= n < 10
  {
    '0' + n as char
  }

  predicate IsDigit(c: char) {
    '0' <= c <= '9'
  }

  /** The numeral of a number, without leading zeros. */
  function Digits(n: nat): (s: string)
    ensures |s| > 0
  {
    if n < 10 then [Digit(n)] else Digits(n / 10) + [Digit(n % 10)]
  }

  function Text(n: int): (s: string)
    ensures |s| > 0
  {
    if n < 0 then "-" + Digits(-n) else Digits(n)
  }

  /** The magnitude as an unsigned number; that of the smallest integer does not fit a signed one. */
  function UnsignedValueOf(n: int): (u: nat)
    requires IsInt32(n)
    ensures u == (if n < 0 then -n else n) <= TWO_31
  {
    if n < 0 then (TWO_32 - n % TWO_32) % TWO_32 else n
  }

  // ---- The length of a numeral ----

  lemma {:induction false} TwoDigits(n: nat)
    requires n > 99
    ensures Digits(n) == Digits(n / 100) + [Digit(n % 100 / 10), Digit(n % 100 % 10)]
  {
    assert n / 10 / 10 == n / 100 && n / 10 % 10 == n % 100 / 10 && n % 10 == n % 100 % 10;
    assert Digits(n) == Digits(n / 10) + [Digit(n % 10)];
    assert Digits(n / 10) == Digits(n / 10 / 10) + [Digit(n / 10 % 10)];
    assert [Digit(n / 10 % 10)] + [Digit(n % 10)] == [Digit(n % 100 / 10), Digit(n % 100 % 10)];
  }

  lemma FourDigits(n: nat)
    requires n > 9999
    ensures |Digits(n)| == 4 + |Digits(n / 10000)|
  {
    TwoDigits(n);
    TwoDigits(n / 100);
    assert n / 100 / 100 == n / 10000;
  }

  method NumberOfSymbolsIn(value: int) returns (symbols: nat)
    requires IsInt32(value)
    ensures symbols == |Text(value)|
  {
    var number := UnsignedValueOf(value);
    symbols := 0;
    while number > 9999
      invariant symbols + |Digits(number)| == |Digits(UnsignedValueOf(value))|
    {
      FourDigits(number);
      symbols := symbols + 4;
      number := number / 10000;
    }
    if number > 99 {
      TwoDigits(number);
      if number > 999 {
        symbols := symbols + 4;
      } else {
        symbols := symbols + 3;
      }
    } else {
      if number > 9 {
        symbols := symbols + 2;
      } else {
        symbols := symbols + 1;
      }
    }
    if value < 0 {
      symbols := symbols + 1;
    }
  }

  lemma {:induction false} DigitsBound(n: nat, k: nat)
    requires k > 0 && n < Power10(k)
    ensures |Digits(n)| <= k
  {
    if k > 1 && n >= 10 {
      DigitsBound(n / 10, k - 1);
    }
  }

  function Power10(k: nat): (p: nat)
    ensures p > 0
  {
    if k == 0 then 1 else 10 * Power10(k - 1)
  }

  /** Eleven cells hold any 32-bit integer. */
  lemma ElevenCells(value: int)
    requires IsInt32(value)
    ensures |Text(value)| <= 11
  {
    assert Power10(2) == 100 && Power10(4) == 10000 && Power10(6) == 1000000 && Power10(8) == 100000000 &&
           Power10(10) == 10000000000;
    DigitsBound(if value < 0 then -value else value, 10);
  }

  // ---- Writing into a buffer ----

  /** The table of digit pairs: entries 2n and 2n + 1 are the digits of n. */
  function DigitPairs(i: nat): char
    requires i < 200
  {
    if i % 2 == 0 then Digit(i / 2 / 10) else Digit(i / 2 % 10)
  }

  /** Only the cells from `p` to `end` have changed. */
  twostate predicate Wrote(buf: array<char>, p: nat, end: nat)
    reads buf
  {
    forall k :: 0 <= k < buf.Length && (k < p || end <= k) ==> buf[k] == old(buf[k])
  }

  /** A pair of digits in front of those written so far, which end at `end`. */
  method PutPair(buf: array<char>, p: nat, pos: nat, ghost end: nat) returns (p': nat)
    requires 2 <= p <= end <= buf.Length && pos < 100
    modifies buf
    ensures p' == p - 2 && buf[p'..end] == [Digit(pos / 10), Digit(pos % 10)] + old(buf[p..end])
    ensures Wrote(buf, p', end)
  {
    p' := p - 1;
    buf[p'] := DigitPairs(2 * pos + 1);
    p' := p' - 1;
    buf[p'] := DigitPairs(2 * pos);
  }

  /** The digits of a number, pair by pair, backwards from `end`. */
  method PutDigits(buf: array<char>, end: nat, value: nat) returns (p: nat)
    requires end <= buf.Length && |Digits(value)| <= end
    modifies buf
    ensures p == end - |Digits(value)| && buf[p..end] == Digits(value)
    ensures Wrote(buf, p, end)
  {
    p := end;
    var number := value;
    while number > 99
      invariant |Digits(number)| <= p <= end && Digits(value) == Digits(number) + buf[p..end]
      invariant Wrote(buf, p, end)
    {
      TwoDigits(number);
      Regroup(Digits(number / 100), [Digit(number % 100 / 10), Digit(number % 100 % 10)], buf[p..end]);
      p := PutPair(buf, p, number % 100, end);
      number := number / 100;
    }
    if number > 9 {
      assert Digits(number) == [Digit(number / 10)] + [Digit(number % 10)] == [Digit(number / 10), Digit(number % 10)];
      p := PutPair(buf, p, number, end);
    } else {
      ghost var tail := buf[p..end];
      p := p - 1;
      buf[p] := '0' + number as char;
      assert buf[p..end] == [Digit(number)] + tail;
    }
  }

  lemma Regroup(a: string, b: string, c: string)
    ensures a + b + c == a + (b + c)
  {
  }

  /** Backwards from the end of `len` cells that start at `start`. */
  method IntegerToString(buf: array<char>, start: nat, len: nat, t: int) returns (p: nat)
    requires start + len <= buf.Length && IsInt32(t) && |Text(t)| <= len
    modifies buf
    ensures p == start + len - |Text(t)| && buf[p..start + len] == Text(t)
    ensures Wrote(buf, p, start + len)
  {
    p := PutDigits(buf, start + len, UnsignedValueOf(t));
    if t < 0 {
      ghost var digits := buf[p..start + len];
      p := p - 1;
      buf[p] := '-';
      assert buf[p..start + len] == "-" + digits;
    }
  }

  function Padding(n: nat, c: char): (s: string)
    ensures |s| == n && forall k :: 0 <= k < n ==> s[k] == c
  {
    if n == 0 then "" else [c] + Padding(n - 1, c)
  }

  /** A number in exactly `len` cells. */
  function Padded(t: int, len: nat, paddingChar: char := '0'): string
    requires |Text(t)| <= len
  {
    Padding(len - |Text(t)|, paddingChar) + Text(t)
  }

  lemma NoPadding(s: string, c: char)
    ensures Padding(0, c) + s == s
  {
  }

  lemma OneMoreCell(n: nat, c: char, s: string)
    ensures [c] + (Padding(n, c) + s) == Padding(n + 1, c) + s
  {
    assert Padding(n + 1, c) == [c] + Padding(n, c);
    Regroup([c], Padding(n, c), s);
  }

  method PutBefore(buf: array<char>, p: nat, c: char, ghost end: nat) returns (p': nat)
    requires 0 < p <= end <= buf.Length
    modifies buf
    ensures p' == p - 1 && buf[p'..end] == [c] + old(buf[p..end])
    ensures Wrote(buf, p', end)
  {
    p' := p - 1;
    buf[p'] := c;
  }

  method IntegerToStringPadded(buf: array<char>, start: nat, len: nat, t: int, paddingChar: char := '0')
      returns (p: nat)
    requires start + len <= buf.Length && IsInt32(t) && |Text(t)| <= len
    modifies buf
    ensures p == start && buf[start..start + len] == Padded(t, len, paddingChar)
    ensures Wrote(buf, start, start + len)
  {
    hide Digits, Text, Padding;
    p := IntegerToString(buf, start, len, t);
    ghost var padding: nat := 0;
    NoPadding(Text(t), paddingChar);
    while p > start
      invariant start <= p && p + padding + |Text(t)| == start + len
      invariant buf[p..start + len] == Padding(padding, paddingChar) + Text(t)
      invariant Wrote(buf, p, start + len)
    {
      p := PutBefore(buf, p, paddingChar, start + len);
      OneMoreCell(padding, paddingChar, Text(t));
      padding := padding + 1;
    }
  }

  // ---- Reading ----

  function DigitValue(c: char): int
    requires IsDigit(c)
    ensures 0 <= DigitValue(c) < 10
  {
    (c - '0') as int
  }

  predicate AllDigits(s: string) {
    forall k :: 0 <= k < |s| ==> IsDigit(s[k])
  }

  /** The number a string of digits stands for. */
  function ValueOf(s: string): nat
    requires AllDigits(s)
  {
    if s == "" then 0 else 10 * ValueOf(s[..|s| - 1]) + DigitValue(s[|s| - 1])
  }

  /** An optional sign, then at least one digit. */
  predicate IsNumeral(s: string) {
    s != "" && (if s[0] == '-' then |s| > 1 && AllDigits(s[1..]) else AllDigits(s))
  }

  function NumeralValue(s: string): int
    requires IsNumeral(s)
  {
    if s[0] == '-' then 0 - ValueOf(s[1..]) else ValueOf(s)
  }

  lemma {:induction false} DigitsAreDigits(n: nat)
    ensures AllDigits(Digits(n)) && ValueOf(Digits(n)) == n
  {
    if n >= 10 {
      DigitsAreDigits(n / 10);
      var s := Digits(n);
      assert s[..|s| - 1] == Digits(n / 10) && s[|s| - 1] == Digit(n % 10);
    } else {
      assert Digits(n)[..0] == "";
    }
  }

  /** Printing a number and reading its text gives the number. */
  lemma TextIsNumeral(n: int)
    ensures IsNumeral(Text(n)) && NumeralValue(Text(n)) == n
  {
    if n < 0 {
      DigitsAreDigits(-n);
      assert Text(n)[1..] == Digits(-n);
    } else {
      DigitsAreDigits(n);
    }
  }

  /** Adding a digit wraps around as the whole number does. */
  lemma WrapStep(n: int, c: int)
    ensures Wrap(10 * Wrap(n) + c) == Wrap(10 * n + c)
  {
    var w := Wrap(n);
    var k := (n - w) / TWO_32;
    assert n == w + TWO_32 * k;
    assert 10 * n + c == 10 * w + c + TWO_32 * (10 * k);
    WrapSame(10 * w + c, 10 * k);
  }

  lemma WrapSame(a: int, k: int)
    ensures Wrap(a + TWO_32 * k) == Wrap(a)
  {
    var b := a + TWO_31;
    assert b + TWO_32 * k == b % TWO_32 + TWO_32 * (b / TWO_32 + k);
  }

  lemma WrapNegated(n: int)
    ensures Wrap(-Wrap(n)) == Wrap(-n)
  {
    var k := (n - Wrap(n)) / TWO_32;
    WrapSame(-Wrap(n), -k);
  }

  method Parse(str: string) returns (ok: bool, result: int)
    ensures ok <==> IsNumeral(str)
    ensures ok ==> result == Wrap(NumeralValue(str))
  {
    var isNegative := false;
    var i := 0;
    result := 0;
    if str == "" {
      return false, 0;
    }
    if str[0] == '-' {
      isNegative := true;
      i := 1;
      if i == |str| {
        return false, 0;
      }
    }
    ghost var first := i;
    ghost var digits := str[first..];
    assert !isNegative ==> digits == str;
    var x := 0;
    assert digits[..0] == "";
    while i < |str|
      invariant first <= i <= |str| && AllDigits(digits[..i - first])
      invariant x == Wrap(ValueOf(digits[..i - first]))
    {
      var c := str[i];
      assert c == digits[i - first];
      if !IsDigit(c) {
        assert !AllDigits(digits);
        return false, 0;
      }
      ghost var seen := digits[..i - first + 1];
      assert seen[..|seen| - 1] == digits[..i - first] && seen[|seen| - 1] == c;
      WrapStep(ValueOf(digits[..i - first]), DigitValue(c));
      x := Wrap(10 * x + DigitValue(c));
      i := i + 1;
    }
    assert digits[..i - first] == digits;
    if isNegative {
      WrapNegated(ValueOf(digits));
      x := Wrap(-x);
    }
    return true, x;
  }

  /** The convertor, with its buffer of eleven cells. */
  method Convert(value: int) returns (s: string)
    requires IsInt32(value)
    ensures s == Text(value)
  {
    ElevenCells(value);
    var buffer := new char[11];
    var start := IntegerToString(buffer, 0, 11, value);
    s := buffer[start..];
  }

  /** Every 32-bit integer, the smallest included, survives being printed and read. */
  method PrintAndParse(value: int) returns (ok: bool, result: int)
    requires IsInt32(value)
    ensures ok && result == value
  {
    var s := Convert(value);
    TextIsNumeral(value);
    ok, result := Parse(s);
  }

  // ---- Checksums ----

  lemma {:induction false} LeadingZeros(k: nat, s: string)
    requires AllDigits(s)
    ensures AllDigits(Padding(k, '0') + s) && ValueOf(Padding(k, '0') + s) == ValueOf(s)
    decreases |s|
  {
    if s == "" {
      assert Padding(k, '0') + s == Padding(k, '0');
      ZerosAreZero(k);
    } else {
      LeadingZeros(k, s[..|s| - 1]);
      var t := Padding(k, '0') + s;
      assert t[..|t| - 1] == Padding(k, '0') + s[..|s| - 1] && t[|t| - 1] == s[|s| - 1];
    }
  }

  lemma {:induction false} ZerosAreZero(k: nat)
    ensures AllDigits(Padding(k, '0')) && ValueOf(Padding(k, '0')) == 0
  {
    if k > 0 {
      ZerosAreZero(k - 1);
      ZerosEnd(k);
    }
  }

  lemma {:induction false} ZerosEnd(k: nat)
    requires k > 0
    ensures Padding(k, '0')[..k - 1] == Padding(k - 1, '0') && Padding(k, '0')[k - 1] == '0'
  {
    var front, zeros := Padding(k, '0')[..k - 1], Padding(k - 1, '0');
    forall j | 0 <= j < k - 1
      ensures front[j] == zeros[j]
    {
      assert front[j] == Padding(k, '0')[j];
    }
  }

  /** A padded number is read as itself. */
  lemma PaddedValue(n: nat, len: nat)
    requires |Text(n)| <= len
    ensures AllDigits(Padded(n, len)) && ValueOf(Padded(n, len)) == n
  {
    DigitsAreDigits(n);
    LeadingZeros(len - |Text(n)|, Text(n));
  }

  /** A checksum has three digits; any other value is refused. */
  method ConvertCheckSum(value: int) returns (ok: bool, s: string)
    ensures ok <==> 0 <= value <= 255
    ensures ok ==> |s| == 3 && AllDigits(s) && ValueOf(s) == value
  {
    if value > 255 || value < 0 {
      return false, "";
    }
    assert Power10(1) == 10 && Power10(3) == 1000;
    DigitsBound(value, 3);
    var result := new char[3];
    var start := IntegerToStringPadded(result, 0, 3, value);
    PaddedValue(value, 3);
    assert result[..] == result[0..3];
    return true, result[..];
  }
}
