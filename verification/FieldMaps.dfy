/** Ordered fields with repeating groups under them: the text of a message, and the body length
    and checksum that are added up without looking at that text. */
module FieldMaps {
  import opened IntText
  import opened Fields

  const BEGIN_STRING := 8
  const BODY_LENGTH := 9
  const CHECK_SUM := 10

  /** A field map as a value: a group holds copies of the maps added to it. The groups are in the
      order of their tags. */
  datatype Content = Content(fields: seq<Field>, groups: seq<Group>)
  datatype Group = Group(tag: int, instances: seq<Content>)

  /** The first field with the tag, or the end. */
  function FindTag(fs: seq<Field>, tag: int): (i: nat)
    ensures i <= |fs| && (i < |fs| ==> fs[i].tag == tag)
    ensures forall k :: 0 <= k < i ==> fs[k].tag != tag
  {
    if fs == [] || fs[0].tag == tag then 0 else 1 + FindTag(fs[1..], tag)
  }

  function FindGroup(gs: seq<Group>, tag: int): (i: nat)
    ensures i <= |gs| && (i < |gs| ==> gs[i].tag == tag)
    ensures forall k :: 0 <= k < i ==> gs[k].tag != tag
  {
    if gs == [] || gs[0].tag == tag then 0 else 1 + FindGroup(gs[1..], tag)
  }

  predicate HasTag(fs: seq<Field>, tag: int) {
    exists k :: 0 <= k < |fs| && fs[k].tag == tag
  }

  predicate DistinctTags(fs: seq<Field>) {
    forall i, j :: 0 <= i < j < |fs| ==> fs[i].tag != fs[j].tag
  }

  predicate Ascending(gs: seq<Group>) {
    forall i, j :: 0 <= i < j < |gs| ==> gs[i].tag < gs[j].tag
  }

  /** What a count field says: the size is printed as a 32-bit integer. */
  function CountText(n: nat): string {
    Text(Wrap(n))
  }

  lemma CountReadsBack(n: nat)
    requires n < TWO_31
    ensures IsNumeral(CountText(n)) && NumeralValue(CountText(n)) == n
  {
    TextIsNumeral(n);
  }

  predicate Says(fs: seq<Field>, tag: int, text: string) {
    Field(tag, text) in fs
  }

  /** The count field of a group is there and gives the number of instances. */
  predicate Counts(fs: seq<Field>, g: Group) {
    g.instances != [] && Says(fs, g.tag, CountText(|g.instances|))
  }

  /** Well counted at every depth: one field a tag, and each group under its own count field. */
  predicate Whole(c: Content)
    decreases c
  {
    && DistinctTags(c.fields) && Ascending(c.groups)
    && (forall i :: 0 <= i < |c.groups| ==> Counts(c.fields, c.groups[i]))
    && (forall i :: 0 <= i < |c.groups| ==>
         forall j :: 0 <= j < |c.groups[i].instances| ==> Whole(c.groups[i].instances[j]))
  }

  predicate AllWhole(cs: seq<Content>) {
    forall j :: 0 <= j < |cs| ==> Whole(cs[j])
  }

  // ---- The text ----

  /** The fields in the order they are written: each one followed by the instances of its group. */
  function Listed(c: Content): seq<Field>
    decreases c, 0
  {
    ListedFields(c.fields, c.groups)
  }

  function ListedFields(fs: seq<Field>, gs: seq<Group>): seq<Field>
    decreases gs, |fs|
  {
    if fs == [] then []
    else
      var front, last := fs[..|fs| - 1], fs[|fs| - 1];
      ListedFields(front, gs) + [last] + ListedGroup(gs, last.tag)
  }

  function ListedGroup(gs: seq<Group>, tag: int): seq<Field>
    decreases gs, 0
  {
    var i := FindGroup(gs, tag);
    if i < |gs| then ListedAll(gs[i].instances) else []
  }

  function ListedAll(cs: seq<Content>): seq<Field>
    decreases cs, 0
  {
    if cs == [] then [] else ListedAll(cs[..|cs| - 1]) + Listed(cs[|cs| - 1])
  }

  function TextOf(c: Content): string {
    Concat(Listed(c))
  }

  lemma WrittenNext(fs: seq<Field>, gs: seq<Group>, i: nat, r: string)
    requires i < |fs|
    ensures r + Concat(ListedFields(fs[..i + 1], gs))
         == r + Concat(ListedFields(fs[..i], gs)) + Encoded(fs[i]) + Concat(ListedGroup(gs, fs[i].tag))
  {
    hide Concat, Encoded, ListedGroup;
    var before, f, under := ListedFields(fs[..i], gs), fs[i], ListedGroup(gs, fs[i].tag);
    assert fs[..i + 1][..i] == fs[..i];
    ConcatNext(before, f);
    ConcatAppend(before + [f], under);
    Regroup(r, Concat(before), Encoded(f));
    Regroup(r, Concat(before) + Encoded(f), Concat(under));
  }

  lemma NothingWritten(gs: seq<Group>, r: string)
    ensures r + Concat(ListedFields([], gs)) == r && r + Concat(ListedAll([])) == r && r + Concat([]) == r
  {
  }

  /** The text is appended to what `result` already holds. */
  method CalculateString(c: Content, result: string) returns (r: string)
    ensures r == result + TextOf(c)
    decreases c, 0
  {
    hide Concat, Encoded, ListedFields, ListedAll;
    r := result;
    var i := 0;
    assert c.fields[..0] == [];
    NothingWritten(c.groups, result);
    while i < |c.fields|
      invariant i <= |c.fields|
      invariant r == result + Concat(ListedFields(c.fields[..i], c.groups))
    {
      WrittenNext(c.fields, c.groups, i, result);
      r := r + Encoded(c.fields[i]);
      NothingWritten(c.groups, r);
      var j := FindGroup(c.groups, c.fields[i].tag);
      if j < |c.groups| {
        r := CalculateInstances(c.groups[j].instances, r);
      }
      i := i + 1;
    }
    assert c.fields[..|c.fields|] == c.fields;
  }

  method CalculateInstances(cs: seq<Content>, result: string) returns (r: string)
    ensures r == result + Concat(ListedAll(cs))
    decreases cs, 0
  {
    hide Encoded;
    r := result;
    var k := 0;
    while k < |cs|
      invariant k <= |cs|
      invariant r == result + Concat(ListedAll(cs[..k]))
    {
      var before := ListedAll(cs[..k]);
      assert cs[..k + 1][..k] == cs[..k];
      r := CalculateString(cs[k], r);
      ConcatAppend(before, Listed(cs[k]));
      Regroup(result, Concat(before), TextOf(cs[k]));
      k := k + 1;
    }
    assert cs[..|cs|] == cs;
  }

  // ---- Length and total ----

  /** What is added up: the lengths, or the byte sums, of the fields whose tag is not left out. */
  datatype Measure = Lengths(skip: set<int>) | Totals(skip: set<int>)

  function Weight(f: Field, m: Measure): nat {
    if f.tag in m.skip then 0
    else match m
      case Lengths(_) => |Encoded(f)|
      case Totals(_) => ByteSum(Encoded(f))
  }

  function Weigh(fs: seq<Field>, m: Measure): nat {
    if fs == [] then 0 else Weigh(fs[..|fs| - 1], m) + Weight(fs[|fs| - 1], m)
  }

  /** Fields first, then all groups; `own` may leave out other tags than the groups do. */
  function Measured(c: Content, own: Measure, inner: Measure): nat
    decreases c, 0
  {
    Weigh(c.fields, own) + MeasuredGroups(c.groups, inner)
  }

  function MeasuredGroups(gs: seq<Group>, inner: Measure): nat
    decreases gs, 0
  {
    if gs == [] then 0
    else MeasuredGroups(gs[..|gs| - 1], inner) + MeasuredAll(gs[|gs| - 1].instances, inner)
  }

  function MeasuredAll(cs: seq<Content>, inner: Measure): nat
    decreases cs, 0
  {
    if cs == [] then 0 else MeasuredAll(cs[..|cs| - 1], inner) + Measured(cs[|cs| - 1], inner, inner)
  }

  const BODY := Lengths({BEGIN_STRING, BODY_LENGTH, CHECK_SUM})
  const SUMMED := Totals({CHECK_SUM})

  lemma NothingWeighs(fs: seq<Field>, gs: seq<Group>, m: Measure)
    ensures Weigh(fs[..0], m) == 0 && fs[..|fs|] == fs
    ensures MeasuredGroups(gs[..0], BODY) == MeasuredGroups(gs[..0], SUMMED) == 0 && gs[..|gs|] == gs
  {
  }

  lemma WeighNext(fs: seq<Field>, i: nat, m: Measure)
    requires i < |fs|
    ensures Weigh(fs[..i + 1], m) == Weigh(fs[..i], m) + Weight(fs[i], m)
  {
    hide Weight;
    assert fs[..i + 1][..i] == fs[..i];
  }

  lemma MeasuredNext(gs: seq<Group>, j: nat, cs: seq<Content>, m: Measure)
    requires j < |gs| && cs == gs[j].instances
    ensures MeasuredGroups(gs[..j + 1], m) == MeasuredGroups(gs[..j], m) + MeasuredAll(cs, m)
    ensures MeasuredAll(cs[..0], m) == 0 && cs[..|cs|] == cs
  {
    hide Measured;
    assert gs[..j + 1][..j] == gs[..j];
  }

  lemma MeasuredOneMore(cs: seq<Content>, k: nat, m: Measure)
    requires k < |cs|
    ensures MeasuredAll(cs[..k + 1], m) == MeasuredAll(cs[..k], m) + Measured(cs[k], m, m)
  {
    hide Measured;
    assert cs[..k + 1][..k] == cs[..k];
  }

  /** The groups are always asked with the standard tags. */
  method CalculateLength(c: Content, beginStringField: int, bodyLengthField: int, checkSumField: int)
      returns (result: nat)
    ensures result == Measured(c, Lengths({beginStringField, bodyLengthField, checkSumField}), BODY)
    decreases c
  {
    hide Encoded, Weigh, MeasuredGroups, MeasuredAll;
    ghost var own := Lengths({beginStringField, bodyLengthField, checkSumField});
    result := 0;
    var i := 0;
    NothingWeighs(c.fields, c.groups, own);
    while i < |c.fields|
      invariant i <= |c.fields| && result == Weigh(c.fields[..i], own)
    {
      WeighNext(c.fields, i, own);
      var tag := c.fields[i].tag;
      if tag != beginStringField && tag != bodyLengthField && tag != checkSumField {
        result := result + |Encoded(c.fields[i])|;
      }
      i := i + 1;
    }
    ghost var fields := result;
    var j := 0;
    while j < |c.groups|
      invariant j <= |c.groups| && result == fields + MeasuredGroups(c.groups[..j], BODY)
    {
      var instances := c.groups[j].instances;
      MeasuredNext(c.groups, j, instances, BODY);
      ghost var before := result;
      var k := 0;
      while k < |instances|
        invariant k <= |instances| && result == before + MeasuredAll(instances[..k], BODY)
      {
        MeasuredOneMore(instances, k, BODY);
        var length := CalculateLength(instances[k], BEGIN_STRING, BODY_LENGTH, CHECK_SUM);
        result := result + length;
        k := k + 1;
      }
      j := j + 1;
    }
  }

  method CalculateTotal(c: Content, checkSumField: int) returns (result: nat)
    ensures result == Measured(c, Totals({checkSumField}), SUMMED)
    decreases c
  {
    hide Encoded, ByteSum, Weigh, MeasuredGroups, MeasuredAll;
    ghost var own := Totals({checkSumField});
    result := 0;
    var i := 0;
    NothingWeighs(c.fields, c.groups, own);
    while i < |c.fields|
      invariant i <= |c.fields| && result == Weigh(c.fields[..i], own)
    {
      WeighNext(c.fields, i, own);
      if c.fields[i].tag != checkSumField {
        result := result + ByteSum(Encoded(c.fields[i]));
      }
      i := i + 1;
    }
    ghost var fields := result;
    var j := 0;
    while j < |c.groups|
      invariant j <= |c.groups| && result == fields + MeasuredGroups(c.groups[..j], SUMMED)
    {
      var instances := c.groups[j].instances;
      MeasuredNext(c.groups, j, instances, SUMMED);
      ghost var before := result;
      var k := 0;
      while k < |instances|
        invariant k <= |instances| && result == before + MeasuredAll(instances[..k], SUMMED)
      {
        MeasuredOneMore(instances, k, SUMMED);
        var total := CalculateTotal(instances[k], CHECK_SUM);
        result := result + total;
        k := k + 1;
      }
      j := j + 1;
    }
  }

  lemma {:induction false} WeighAppend(fs: seq<Field>, gs: seq<Field>, m: Measure)
    ensures Weigh(fs + gs, m) == Weigh(fs, m) + Weigh(gs, m)
  {
    hide Weight;
    if gs == [] {
      assert fs + gs == fs;
    } else {
      var all, front := fs + gs, gs[..|gs| - 1];
      WeighAppend(fs, front, m);
      assert all[..|all| - 1] == fs + front;
    }
  }

  // ---- What the written fields weigh ----

  /** One field a tag and one group a tag, at every depth. */
  predicate Plain(c: Content)
    decreases c
  {
    && DistinctTags(c.fields) && Ascending(c.groups)
    && (forall i :: 0 <= i < |c.groups| ==>
         forall j :: 0 <= j < |c.groups[i].instances| ==> Plain(c.groups[i].instances[j]))
  }

  predicate AllPlain(cs: seq<Content>) {
    forall j :: 0 <= j < |cs| ==> Plain(cs[j])
  }

  /** Every group that weighs anything is written: it stands under a field of its tag, and so, at
      every depth, do the groups of the instances that are written. */
  predicate Written(c: Content, m: Measure)
    decreases c
  {
    forall i :: 0 <= i < |c.groups| ==>
      if HasTag(c.fields, c.groups[i].tag)
      then forall j :: 0 <= j < |c.groups[i].instances| ==> Written(c.groups[i].instances[j], m)
      else MeasuredAll(c.groups[i].instances, m) == 0
  }

  predicate AllWritten(cs: seq<Content>, m: Measure) {
    forall j :: 0 <= j < |cs| ==> Written(cs[j], m)
  }

  /** What is written of the groups, in the order of the fields they stand under. */
  function SumUnder(fs: seq<Field>, gs: seq<Group>, m: Measure): nat {
    if fs == [] then 0 else SumUnder(fs[..|fs| - 1], gs, m) + Weigh(ListedGroup(gs, fs[|fs| - 1].tag), m)
  }

  lemma {:induction false} SumUnderNone(fs: seq<Field>, m: Measure)
    ensures SumUnder(fs, [], m) == 0
  {
    if fs != [] {
      SumUnderNone(fs[..|fs| - 1], m);
    }
  }

  lemma UnderOneMore(gs: seq<Group>, tag: int, m: Measure)
    requires gs != [] && Ascending(gs)
    ensures var front, last := gs[..|gs| - 1], gs[|gs| - 1];
            Weigh(ListedGroup(gs, tag), m) == Weigh(ListedGroup(front, tag), m) + if tag == last.tag then
                Weigh(ListedAll(last.instances), m) else 0
  {
    hide ListedAll, Weight;
    var front, last := gs[..|gs| - 1], gs[|gs| - 1];
    var i, j := FindGroup(gs, tag), FindGroup(front, tag);
    assert forall k :: 0 <= k < |front| ==> front[k] == gs[k];
    assert j < |front| ==> i == j;
  }

  /** One more group is written once, under the one field with its tag. */
  lemma {:induction false} SumUnderOneMore(fs: seq<Field>, gs: seq<Group>, m: Measure)
    requires gs != [] && Ascending(gs) && DistinctTags(fs)
    ensures var front, last := gs[..|gs| - 1], gs[|gs| - 1];
            SumUnder(fs, gs, m) == SumUnder(fs, front, m) + if HasTag(fs, last.tag) then
                Weigh(ListedAll(last.instances), m) else 0
  {
    hide ListedAll, ListedGroup, Weigh;
    if fs != [] {
      var f := fs[|fs| - 1];
      SumUnderOneMore(fs[..|fs| - 1], gs, m);
      UnderOneMore(gs, f.tag, m);
    }
  }

  /** What one group weighs beyond what is written of it. */
  function Gap(fs: seq<Field>, g: Group, m: Measure): int {
    MeasuredAll(g.instances, m) - if HasTag(fs, g.tag) then Weigh(ListedAll(g.instances), m) else 0
  }

  function Gaps(fs: seq<Field>, gs: seq<Group>, m: Measure): int {
    if gs == [] then 0 else Gaps(fs, gs[..|gs| - 1], m) + Gap(fs, gs[|gs| - 1], m)
  }

  /** With one field a tag, nothing is written twice. */
  lemma {:induction false} GroupsUnderFields(fs: seq<Field>, gs: seq<Group>, m: Measure)
    requires Ascending(gs) && DistinctTags(fs)
    ensures SumUnder(fs, gs, m) + Gaps(fs, gs, m) == MeasuredGroups(gs, m)
    decreases |gs|
  {
    hide MeasuredAll, HasTag, ListedAll, ListedGroup, Weigh;
    if gs == [] {
      SumUnderNone(fs, m);
    } else {
      var front := gs[..|gs| - 1];
      assert forall i :: 0 <= i < |front| ==> front[i] == gs[i];
      GroupsUnderFields(fs, front, m);
      SumUnderOneMore(fs, gs, m);
    }
  }

  lemma {:induction false} GapsAddUp(fs: seq<Field>, gs: seq<Group>, m: Measure)
    requires forall i :: 0 <= i < |gs| ==> Gap(fs, gs[i], m) >= 0
    ensures Gaps(fs, gs, m) >= 0
    ensures Gaps(fs, gs, m) == 0 <==> forall i :: 0 <= i < |gs| ==> Gap(fs, gs[i], m) == 0
    decreases |gs|
  {
    hide Gap;
    if gs != [] {
      var front := gs[..|gs| - 1];
      assert forall i :: 0 <= i < |front| ==> front[i] == gs[i];
      GapsAddUp(fs, front, m);
    }
  }

  lemma {:induction false} FieldsWeigh(fs: seq<Field>, gs: seq<Group>, m: Measure)
    ensures Weigh(ListedFields(fs, gs), m) == Weigh(fs, m) + SumUnder(fs, gs, m)
    decreases |fs|
  {
    hide Weight, ListedGroup;
    if fs != [] {
      var front, last := fs[..|fs| - 1], fs[|fs| - 1];
      var before, after := ListedFields(front, gs), ListedGroup(gs, last.tag);
      FieldsWeigh(front, gs, m);
      WeighAppend(before + [last], after, m);
      WeighAppend(before, [last], m);
      assert [last][..0] == [];
    }
  }

  /** The text weighs no more than what is added up, and as much exactly when all that weighs
      anything is written. */
  lemma {:induction false} ListedWeighsExactlyWhen(c: Content, m: Measure)
    requires Plain(c)
    ensures Weigh(Listed(c), m) <= Measured(c, m, m)
    ensures Weigh(Listed(c), m) == Measured(c, m, m) <==> Written(c, m)
    decreases c, 0
  {
    hide Weigh, MeasuredGroups, HasTag, MeasuredAll, SumUnder, Gaps, ListedFields, ListedAll;
    forall i | 0 <= i < |c.groups|
      ensures var g := c.groups[i];
              && Gap(c.fields, g, m) >= 0
              && (Gap(c.fields, g, m) == 0 <==>
                  if HasTag(c.fields, g.tag) then AllWritten(g.instances, m) else MeasuredAll(g.instances, m) == 0)
    {
      InstancesWeigh(c.groups[i].instances, m);
    }
    GapsAddUp(c.fields, c.groups, m);
    GroupsUnderFields(c.fields, c.groups, m);
    FieldsWeigh(c.fields, c.groups, m);
  }

  lemma {:induction false} InstancesWeigh(cs: seq<Content>, m: Measure)
    requires AllPlain(cs)
    ensures Weigh(ListedAll(cs), m) <= MeasuredAll(cs, m)
    ensures Weigh(ListedAll(cs), m) == MeasuredAll(cs, m) <==> AllWritten(cs, m)
    decreases cs, 0
  {
    hide Weight, Plain, Measured, Listed, Written;
    if cs != [] {
      var front, last := cs[..|cs| - 1], cs[|cs| - 1];
      InstancesWeigh(front, m);
      ListedWeighsExactlyWhen(last, m);
      WeighAppend(ListedAll(front), Listed(last), m);
      assert AllWritten(cs, m) <==> AllWritten(front, m) && Written(last, m);
    }
  }

  lemma {:induction false} WholeIsWritten(c: Content, m: Measure)
    requires Whole(c)
    ensures Plain(c) && Written(c, m)
    decreases c
  {
    forall i | 0 <= i < |c.groups|
      ensures HasTag(c.fields, c.groups[i].tag) && AllPlain(c.groups[i].instances)
      ensures AllWritten(c.groups[i].instances, m)
    {
      var g := c.groups[i];
      assert Counts(c.fields, g);
      var k :| 0 <= k < |c.fields| && c.fields[k] == Field(g.tag, CountText(|g.instances|));
      assert c.fields[k].tag == g.tag;
      forall j | 0 <= j < |g.instances|
        ensures Plain(g.instances[j]) && Written(g.instances[j], m)
      {
        WholeIsWritten(g.instances[j], m);
      }
    }
  }

  /** What is added up group by group is what the fields of the text add up to. */
  lemma ListedWeighs(c: Content, m: Measure)
    requires Whole(c)
    ensures Weigh(Listed(c), m) == Measured(c, m, m)
  {
    hide Whole, Written, Plain;
    WholeIsWritten(c, m);
    ListedWeighsExactlyWhen(c, m);
  }

  // ---- Against the text ----

  predicate Keeps(f: Field, skip: set<int>) {
    f.tag !in skip
  }

  /** The text with the fields of some tags taken out. */
  function Without(fs: seq<Field>, skip: set<int>): seq<Field> {
    if fs == [] then []
    else Without(fs[..|fs| - 1], skip) + if Keeps(fs[|fs| - 1], skip) then [fs[|fs| - 1]] else []
  }

  lemma {:induction false} WeighIsText(fs: seq<Field>, skip: set<int>)
    ensures Weigh(fs, Lengths(skip)) == |Concat(Without(fs, skip))|
    ensures Weigh(fs, Totals(skip)) == ByteSum(Concat(Without(fs, skip)))
  {
    hide Encoded, ByteSum;
    if fs == [] {
      ConcatNext([], Field(0, ""));
      assert ByteSum("") == 0 by { ByteSumConcat("", ""); assert "" + "" == ""; }
    } else {
      var front, last := fs[..|fs| - 1], fs[|fs| - 1];
      WeighIsText(front, skip);
      var before := Without(front, skip);
      ConcatNext(before, last);
      ByteSumConcat(Concat(before), Encoded(last));
      assert before + [] == before;
    }
  }

  /** The body length is the byte length of the text without its tags 8, 9 and 10, groups at every
      depth included. */
  lemma LengthOfText(c: Content)
    requires Whole(c)
    ensures Measured(c, BODY, BODY) == |Concat(Without(Listed(c), {BEGIN_STRING, BODY_LENGTH, CHECK_SUM}))|
  {
    ListedWeighs(c, BODY);
    WeighIsText(Listed(c), BODY.skip);
  }

  /** The total is the byte sum of the text without its tag 10. */
  lemma TotalOfText(c: Content)
    requires Whole(c)
    ensures Measured(c, SUMMED, SUMMED) == ByteSum(Concat(Without(Listed(c), {CHECK_SUM})))
  {
    ListedWeighs(c, SUMMED);
    WeighIsText(Listed(c), SUMMED.skip);
  }

  /** Counts may be missing or wrong, at any depth: the length is that of the text if and only if
      every group that has a length is written. */
  lemma LengthOfTextExactlyWhen(c: Content)
    requires Plain(c)
    ensures Measured(c, BODY, BODY) == |Concat(Without(Listed(c), {BEGIN_STRING, BODY_LENGTH, CHECK_SUM}))| <==>
            Written(c, BODY)
  {
    hide Weigh, Without, Written, Plain;
    ListedWeighsExactlyWhen(c, BODY);
    WeighIsText(Listed(c), BODY.skip);
  }

  /** The same of the byte sum. */
  lemma TotalOfTextExactlyWhen(c: Content)
    requires Plain(c)
    ensures Measured(c, SUMMED, SUMMED) == ByteSum(Concat(Without(Listed(c), {CHECK_SUM}))) <==> Written(c, SUMMED)
  {
    hide Weigh, Without, Written, Plain;
    ListedWeighsExactlyWhen(c, SUMMED);
    WeighIsText(Listed(c), SUMMED.skip);
  }

  lemma OneInstance()
    ensures var x := Content([Field(5, "")], []);
            Whole(x) && MeasuredAll([x], BODY) == Weigh(ListedAll([x]), BODY) == |Text(5)| + 2
  {
    var x := Content([Field(5, "")], []);
    assert [x][..0] == [] && x.fields[..0] == [];
    assert Weigh(x.fields, BODY) == Weight(Field(5, ""), BODY);
    WholeIsWritten(x, BODY);
    InstancesWeigh([x], BODY);
  }

  /** A group added without its count: the length counts it, the text is empty. */
  lemma UncountedGroupMismatch()
    ensures var c := Content([], [Group(1, [Content([Field(5, "")], [])])]);
            TextOf(c) == "" && Measured(c, BODY, BODY) == |Text(5)| + 2 > 0
  {
    hide MeasuredAll;
    var g := Group(1, [Content([Field(5, "")], [])]);
    OneInstance();
    assert [g][..0] == [] && MeasuredGroups([g], BODY) == |Text(5)| + 2;
  }

  /** A count field set a second time without overwriting: the group is written under both, and is
      counted once. */
  lemma RepeatedCountMismatch()
    ensures var c := Content([Field(1, "1"), Field(1, "1")], [Group(1, [Content([Field(5, "")], [])])]);
            Weigh(Listed(c), BODY) == Measured(c, BODY, BODY) + |Text(5)| + 2
  {
    hide Weigh, ListedAll, MeasuredAll, ListedFields;
    var one, g := Field(1, "1"), Group(1, [Content([Field(5, "")], [])]);
    var fs := [one, one];
    OneInstance();
    FieldsWeigh(fs, [g], BODY);
    assert ListedGroup([g], 1) == ListedAll(g.instances);
    assert fs[..1] == [one] && [one][..0] == [];
    assert SumUnder([one], [g], BODY) == |Text(5)| + 2;
    assert SumUnder(fs, [g], BODY) == 2 * (|Text(5)| + 2);
    assert [g][..0] == [] && MeasuredGroups([g], BODY) == |Text(5)| + 2;
  }

  lemma {:induction false} WithoutNone(fs: seq<Field>, skip: set<int>)
    requires forall f :: f in fs ==> f.tag !in skip
    ensures Without(fs, skip) == fs
  {
    if fs != [] {
      var n := |fs| - 1;
      assert fs[..n] + [fs[n]] == fs;
      assert forall f :: f in fs[..n] ==> f in fs;
      WithoutNone(fs[..n], skip);
    }
  }

  /** A map with none of the three tags weighs exactly what its text is long. */
  lemma BodyIsItsText(c: Content)
    requires Whole(c) && forall f :: f in Listed(c) ==> f.tag !in {BEGIN_STRING, BODY_LENGTH, CHECK_SUM}
    ensures Measured(c, BODY, BODY) == |TextOf(c)| && Measured(c, SUMMED, SUMMED) == ByteSum(TextOf(c))
  {
    hide Whole, Measured, Listed, ByteSum, Concat;
    LengthOfText(c);
    TotalOfText(c);
    WithoutNone(Listed(c), BODY.skip);
    WithoutNone(Listed(c), SUMMED.skip);
  }
}
