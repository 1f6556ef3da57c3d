/** A tag and its value as it stands in a message, `tag=value` followed by the SOH separator,
    and the field object that caches that text, its length and its byte sum. */
module Fields {
  import opened IntText

  const SOH: char := 1 as char

  datatype Field = Field(tag: int, text: string)

  function Encoded(f: Field): (s: string)
    ensures |s| == |Text(f.tag)| + |f.text| + 2
  {
    Text(f.tag) + "=" + f.text + [SOH]
  }

  /** A character taken as an unsigned byte. */
  function ByteOf(c: char): nat {
    c as int % 256
  }

  function ByteSum(s: string): nat {
    if s == "" then 0 else ByteSum(s[..|s| - 1]) + ByteOf(s[|s| - 1])
  }

  lemma {:induction false} ByteSumConcat(a: string, b: string)
    ensures ByteSum(a + b) == ByteSum(a) + ByteSum(b)
  {
    if b == "" {
      assert a + b == a;
    } else {
      ByteSumConcat(a, b[..|b| - 1]);
      assert (a + b)[..|a + b| - 1] == a + b[..|b| - 1];
    }
  }

  function Concat(fs: seq<Field>): string {
    if fs == [] then "" else Concat(fs[..|fs| - 1]) + Encoded(fs[|fs| - 1])
  }

  lemma ConcatNext(fs: seq<Field>, f: Field)
    ensures Concat([]) == ""
    ensures Concat(fs + [f]) == Concat(fs) + Encoded(f)
  {
    assert (fs + [f])[..|fs|] == fs;
  }

  lemma {:induction false} ConcatAppend(fs: seq<Field>, gs: seq<Field>)
    ensures Concat(fs + gs) == Concat(fs) + Concat(gs)
  {
    hide Concat, Encoded;
    if gs == [] {
      assert fs + gs == fs;
      ConcatNext([], Field(0, ""));
      assert Concat(fs) + "" == Concat(fs);
    } else {
      var front, last := gs[..|gs| - 1], gs[|gs| - 1];
      assert gs == front + [last] && fs + gs == fs + front + [last];
      ConcatAppend(fs, front);
      ConcatNext(fs + front, last);
      ConcatNext(front, last);
      Regroup(Concat(fs), Concat(front), Encoded(last));
    }
  }

  lemma {:induction false} NoEqualsInDigits(n: nat)
    ensures forall k :: 0 <= k < |Digits(n)| ==> Digits(n)[k] != '='
  {
    DigitsAreDigits(n);
  }

  /** Only the separator ends a value: two texts that agree start with the same field, as long as
      neither value holds a separator. */
  lemma EncodedReadsBack(f: Field, g: Field, a: string, b: string)
    requires Encoded(f) + a == Encoded(g) + b
    requires SOH !in f.text && SOH !in g.text
    ensures f == g && a == b
  {
    var s := Encoded(f) + a;
    TagEnds(f, a);
    TagEnds(g, b);
    var p, q := |Text(f.tag)|, |Text(g.tag)|;
    assert p == q;
    assert Text(f.tag) == s[..p] == Text(g.tag);
    TextIsNumeral(f.tag);
    TextIsNumeral(g.tag);
    var m, n := p + 1 + |f.text|, p + 1 + |g.text|;
    assert s[m] == SOH && s[n] == SOH;
    assert forall k :: p < k < m ==> s[k] == f.text[k - p - 1];
    assert forall k :: p < k < n ==> s[k] == g.text[k - p - 1];
    assert m == n;
    assert f.text == s[p + 1..m] == g.text;
    assert a == s[m + 1..] == b;
  }

  lemma TagEnds(f: Field, a: string)
    ensures var s, p := Encoded(f) + a, |Text(f.tag)|;
            && s[..p] == Text(f.tag) && s[p] == '='
            && forall k :: 0 <= k < p ==> s[k] != '='
  {
    var s, p := Encoded(f) + a, |Text(f.tag)|;
    assert s[..p] == Text(f.tag);
    NoEqualsInDigits(if f.tag < 0 then 0 - f.tag else f.tag);
    assert forall k :: 0 <= k < p ==> s[k] == Text(f.tag)[k];
  }

  /** The text of a list of fields determines the list. */
  lemma {:induction false} ConcatReadsBack(fs: seq<Field>, gs: seq<Field>)
    requires Concat(fs) == Concat(gs)
    requires forall f :: f in fs + gs ==> SOH !in f.text
    ensures fs == gs
    decreases |fs|
  {
    if fs != [] && gs != [] {
      FirstField(fs);
      FirstField(gs);
      assert fs[0] in fs + gs && gs[0] in fs + gs;
      EncodedReadsBack(fs[0], gs[0], Concat(fs[1..]), Concat(gs[1..]));
      ConcatReadsBack(fs[1..], gs[1..]);
    }
  }

  lemma FirstField(fs: seq<Field>)
    requires fs != []
    ensures Concat(fs) == Encoded(fs[0]) + Concat(fs[1..])
  {
    assert fs == [fs[0]] + fs[1..];
    ConcatAppend([fs[0]], fs[1..]);
    assert Concat([fs[0]]) == Encoded(fs[0]);
  }

  lemma LaidOut(s: string, f: Field)
    requires var p := |Text(f.tag)|;
             |s| == p + |f.text| + 2 && s[..p] == Text(f.tag) && s[p] == '=' && s[|s| - 1] == SOH
    requires forall k :: 0 <= k < |f.text| ==> s[|Text(f.tag)| + 1 + k] == f.text[k]
    ensures s == Encoded(f)
  {
    var p := |Text(f.tag)|;
    assert s == s[..p] + [s[p]] + s[p + 1..|s| - 1] + [s[|s| - 1]];
    assert s[p + 1..|s| - 1] == f.text;
  }

  /** A field with its cached text and metrics. An empty text and a zero length stand for "not
      computed yet". */
  class FieldBase {
    var tag: int
    var text: string
    var data: string
    var length: nat
    var checkSum: int

    function Value(): Field
      reads this`tag, this`text
    {
      Field(tag, text)
    }

    /** A cache that is filled holds what a fresh computation would give. */
    ghost predicate Valid()
      reads this
    {
      && IsInt32(tag)
      && (data == "" || data == Encoded(Value()))
      && (length == 0 || (length == |Encoded(Value())| && checkSum == ByteSum(Encoded(Value()))))
    }

    constructor (tag: int, text: string)
      requires IsInt32(tag)
      ensures Valid() && Value() == Field(tag, text)
    {
      this.tag, this.text, data, length, checkSum := tag, text, "", 0, 0;
    }

    /** The copy takes the metrics along, not the text. */
    constructor Copy(rhs: FieldBase)
      requires rhs.Valid()
      ensures Valid() && Value() == rhs.Value()
      ensures data == "" && length == rhs.length && checkSum == rhs.checkSum
    {
      tag, text, data, length, checkSum := rhs.tag, rhs.text, "", rhs.length, rhs.checkSum;
    }

    method Assign(rhs: FieldBase)
      requires rhs.Valid()
      modifies this
      ensures Valid() && Value() == old(rhs.Value())
      ensures data == "" && length == old(rhs.length) && checkSum == old(rhs.checkSum)
    {
      tag, text, length, checkSum := rhs.tag, rhs.text, rhs.length, rhs.checkSum;
      data := "";
    }

    method Swap(rhs: FieldBase)
      requires Valid() && rhs.Valid()
      modifies this, rhs
      ensures Valid() && rhs.Valid()
      ensures Value() == old(rhs.Value()) && rhs.Value() == old(Value())
      ensures data == old(rhs.data) && length == old(rhs.length) && checkSum == old(rhs.checkSum)
      ensures rhs.data == old(data) && rhs.length == old(length) && rhs.checkSum == old(checkSum)
    {
      tag, rhs.tag := rhs.tag, tag;
      length, rhs.length := rhs.length, length;
      checkSum, rhs.checkSum := rhs.checkSum, checkSum;
      text, rhs.text := rhs.text, text;
      data, rhs.data := rhs.data, data;
    }

    method SetTag(tag: int)
      requires IsInt32(tag)
      modifies this
      ensures Valid() && Value() == Field(tag, old(text))
      ensures data == "" && length == checkSum == 0
    {
      this.tag, length, checkSum, data := tag, 0, 0, "";
    }

    method SetString(text: string)
      requires Valid()
      modifies this
      ensures Valid() && Value() == Field(old(tag), text)
      ensures data == "" && length == checkSum == 0
    {
      this.text, length, checkSum, data := text, 0, 0, "";
    }

    method GetFixString() returns (s: string)
      requires Valid()
      modifies this`data
      ensures Valid() && s == Encoded(Value()) == data
    {
      if data == "" {
        data := EncodeTo(tag, text);
      }
      s := data;
    }

    method GetLength() returns (n: nat)
      requires Valid()
      modifies this`data, this`length, this`checkSum
      ensures Valid() && n == |Encoded(Value())|
    {
      Calculate();
      n := length;
    }

    method GetTotal() returns (n: int)
      requires Valid()
      modifies this`data, this`length, this`checkSum
      ensures Valid() && n == ByteSum(Encoded(Value()))
    {
      Calculate();
      n := checkSum;
    }

    method Calculate()
      requires Valid()
      modifies this`data, this`length, this`checkSum
      ensures Valid() && length > 0
    {
      if length > 0 {
        return;
      }
      var s := GetFixString();
      length, checkSum := CalculateMetrics(s);
    }

    static method CalculateMetrics(s: string) returns (length: nat, checkSum: int)
      ensures length == |s| && checkSum == ByteSum(s)
    {
      checkSum := 0;
      var i := 0;
      while i < |s|
        invariant i <= |s| && checkSum == ByteSum(s[..i])
      {
        assert s[..i + 1][..i] == s[..i];
        checkSum := checkSum + s[i] as int % 256;
        i := i + 1;
      }
      assert s[..|s|] == s;
      length := |s|;
    }

    /** The tag is written backwards into the first cells, then come the sign, the value and the
        separator. */
    static method EncodeTo(tag: int, text: string) returns (result: string)
      requires IsInt32(tag)
      ensures result == Encoded(Field(tag, text))
    {
      hide Encoded, Text;
      var tagLength := NumberOfSymbolsIn(tag);
      var totalLength := tagLength + |text| + 2;
      var buf := new char[totalLength];
      var p := IntegerToString(buf, 0, tagLength, tag);
      buf[tagLength] := '=';
      forall k | 0 <= k < |text| {
        buf[tagLength + 1 + k] := text[k];
      }
      buf[totalLength - 1] := SOH;
      result := buf[..];
      assert result[..tagLength] == Text(tag);
      LaidOut(result, Field(tag, text));
    }
  }
}
