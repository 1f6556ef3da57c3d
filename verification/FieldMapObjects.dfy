/** The field map itself: fields kept in message order, groups kept under their tags, and the
    count field of each group kept up to date. */
module FieldMapObjects {
  import opened Options
  import opened Fields
  import opened FieldMaps

  type MessageOrder = (int, int) -> bool

  /** The order of the tags of a message; any strict total order will do. */
  ghost predicate IsMessageOrder(less: MessageOrder) {
    && (forall a :: !less(a, a))
    && (forall a, b :: a == b || less(a, b) || less(b, a))
    && (forall a, b, c :: less(a, b) && less(b, c) ==> less(a, c))
  }

  predicate InOrder(fs: seq<Field>, less: MessageOrder) {
    forall i, j :: 0 <= i < j < |fs| ==> !less(fs[j].tag, fs[i].tag)
  }

  // ---- One element taken out of a list, or put into it ----

  ghost predicate IsRemoved<T>(s: seq<T>, i: nat, r: seq<T>) {
    && i < |s| && |r| == |s| - 1
    && (forall k :: 0 <= k < i ==> r[k] == s[k])
    && (forall k :: i <= k < |r| ==> r[k] == s[k + 1])
  }

  ghost predicate IsInserted<T>(s: seq<T>, i: nat, x: T, r: seq<T>) {
    && i <= |s| && |r| == |s| + 1 && r[i] == x
    && (forall k :: 0 <= k < i ==> r[k] == s[k])
    && (forall k :: i < k < |r| ==> r[k] == s[k - 1])
  }

  lemma RemovedAt<T>(s: seq<T>, i: nat)
    requires i < |s|
    ensures IsRemoved(s, i, s[..i] + s[i + 1..])
  {
  }

  lemma InsertedAt<T>(s: seq<T>, i: nat, x: T)
    requires i <= |s|
    ensures IsInserted(s, i, x, s[..i] + [x] + s[i..])
  {
  }

  lemma RemovedMembers<T>(s: seq<T>, i: nat, r: seq<T>)
    requires IsRemoved(s, i, r)
    ensures forall x :: x in r ==> x in s
    ensures forall x :: x in s && x != s[i] ==> x in r
  {
    forall k | 0 <= k < |s| && s[k] != s[i]
      ensures s[k] in r
    {
      assert s[k] == r[if k < i then k else k - 1];
    }
    forall k | 0 <= k < |r|
      ensures r[k] in s
    {
      assert r[k] == s[if k < i then k else k + 1];
    }
  }

  lemma InsertedMembers<T>(s: seq<T>, i: nat, x: T, r: seq<T>)
    requires IsInserted(s, i, x, r)
    ensures forall y :: y in r <==> y == x || y in s
  {
    forall k | 0 <= k < |s|
      ensures s[k] in r
    {
      assert s[k] == r[if k < i then k else k + 1];
    }
    forall k | 0 <= k < |r|
      ensures r[k] == x || r[k] in s
    {
      assert k == i || r[k] == s[if k < i then k else k - 1];
    }
  }

  // ---- Fields ----

  /** Behind the last field that does not come after the tag. */
  function PositionFor(fs: seq<Field>, tag: int, less: MessageOrder): (p: nat)
    ensures p <= |fs| && (p < |fs| ==> less(tag, fs[p].tag))
    ensures forall k :: 0 <= k < p ==> !less(tag, fs[k].tag)
  {
    if fs == [] || less(tag, fs[0].tag) then 0 else 1 + PositionFor(fs[1..], tag, less)
  }

  function Inserted(fs: seq<Field>, f: Field, less: MessageOrder): seq<Field> {
    var p := PositionFor(fs, f.tag, less);
    fs[..p] + [f] + fs[p..]
  }

  function WithField(fs: seq<Field>, f: Field, less: MessageOrder): seq<Field> {
    var i := FindTag(fs, f.tag);
    if i < |fs| then fs[i := f] else Inserted(fs, f, less)
  }

  function WithoutField(fs: seq<Field>, tag: int): seq<Field> {
    var i := FindTag(fs, tag);
    if i < |fs| then fs[..i] + fs[i + 1..] else fs
  }

  lemma InsertedKeepsOrder(fs: seq<Field>, f: Field, less: MessageOrder)
    requires IsMessageOrder(less) && InOrder(fs, less)
    ensures InOrder(Inserted(fs, f, less), less)
    ensures forall g :: g in Inserted(fs, f, less) <==> g == f || g in fs
    ensures DistinctTags(fs) && !HasTag(fs, f.tag) ==> DistinctTags(Inserted(fs, f, less))
  {
    var p := PositionFor(fs, f.tag, less);
    InsertedAt(fs, p, f);
    InsertedMembers(fs, p, f, Inserted(fs, f, less));
    forall k | p <= k < |fs|
      ensures less(f.tag, fs[k].tag)
    {
      assert k == p || !less(fs[k].tag, fs[p].tag);
    }
    OrderWith(fs, p, f, Inserted(fs, f, less), less);
  }

  lemma OrderWith(fs: seq<Field>, p: nat, f: Field, r: seq<Field>, less: MessageOrder)
    requires IsMessageOrder(less) && InOrder(fs, less) && IsInserted(fs, p, f, r)
    requires forall k :: 0 <= k < p ==> !less(f.tag, fs[k].tag)
    requires forall k :: p <= k < |fs| ==> less(f.tag, fs[k].tag)
    ensures InOrder(r, less)
    ensures DistinctTags(fs) && !HasTag(fs, f.tag) ==> DistinctTags(r)
  {
  }

  /** The tag gets the text; no other field changes. With one field a tag and the order this says
      exactly what the new list is. */
  lemma WithFieldSets(fs: seq<Field>, f: Field, less: MessageOrder)
    requires IsMessageOrder(less) && InOrder(fs, less)
    ensures InOrder(WithField(fs, f, less), less)
    ensures DistinctTags(fs) ==>
              && DistinctTags(WithField(fs, f, less))
              && forall g :: g in WithField(fs, f, less) <==> g == f || (g in fs && g.tag != f.tag)
  {
    var i, r := FindTag(fs, f.tag), WithField(fs, f, less);
    if i < |fs| {
      forall g | g in fs && g.tag != f.tag
        ensures g in r
      {
        var k :| 0 <= k < |fs| && fs[k] == g;
        assert r[k] == g;
      }
      assert r[i] == f;
    } else {
      InsertedKeepsOrder(fs, f, less);
      assert !HasTag(fs, f.tag);
    }
  }

  /** Without overwriting, one field a tag is kept exactly when the tag had no field. */
  lemma InsertedIsDistinctExactlyWhen(fs: seq<Field>, f: Field, less: MessageOrder)
    requires IsMessageOrder(less) && InOrder(fs, less) && DistinctTags(fs)
    ensures DistinctTags(Inserted(fs, f, less)) <==> !HasTag(fs, f.tag)
  {
    var p, r := PositionFor(fs, f.tag, less), Inserted(fs, f, less);
    InsertedKeepsOrder(fs, f, less);
    InsertedAt(fs, p, f);
    if HasTag(fs, f.tag) {
      var k :| 0 <= k < |fs| && fs[k].tag == f.tag;
      var k' := if k < p then k else k + 1;
      assert r[k'] == fs[k] && r[p] == f;
    }
  }

  lemma WithoutFieldRemoves(fs: seq<Field>, tag: int, less: MessageOrder)
    requires InOrder(fs, less)
    ensures InOrder(WithoutField(fs, tag), less)
    ensures DistinctTags(fs) ==>
              && DistinctTags(WithoutField(fs, tag))
              && forall g :: g in WithoutField(fs, tag) <==> g in fs && g.tag != tag
  {
    var i := FindTag(fs, tag);
    if i < |fs| {
      RemovedAt(fs, i);
      OrderWithout(fs, i, WithoutField(fs, tag), less);
    } else {
      assert forall k :: 0 <= k < |fs| ==> fs[k].tag != tag;
    }
  }

  lemma OrderWithout(fs: seq<Field>, i: nat, r: seq<Field>, less: MessageOrder)
    requires InOrder(fs, less) && IsRemoved(fs, i, r)
    ensures InOrder(r, less)
    ensures DistinctTags(fs) ==> DistinctTags(r) && forall g :: g in r <==> g in fs && g.tag != fs[i].tag
  {
    RemovedMembers(fs, i, r);
  }

  // ---- Groups ----

  function InstancesOf(gs: seq<Group>, tag: int): seq<Content> {
    var i := FindGroup(gs, tag);
    if i < |gs| then gs[i].instances else []
  }

  function Place(gs: seq<Group>, tag: int): (p: nat)
    ensures p <= |gs| && (p < |gs| ==> tag <= gs[p].tag)
    ensures forall k :: 0 <= k < p ==> gs[k].tag < tag
  {
    if gs == [] || tag <= gs[0].tag then 0 else 1 + Place(gs[1..], tag)
  }

  function Put(gs: seq<Group>, g: Group): seq<Group> {
    var p := Place(gs, g.tag);
    gs[..p] + [g] + if p < |gs| && gs[p].tag == g.tag then gs[p + 1..] else gs[p..]
  }

  function Dropped(gs: seq<Group>, tag: int): seq<Group> {
    var i := FindGroup(gs, tag);
    if i < |gs| then gs[..i] + gs[i + 1..] else gs
  }

  lemma PutReplaces(gs: seq<Group>, g: Group)
    requires Ascending(gs)
    ensures Ascending(Put(gs, g))
    ensures forall h :: h in Put(gs, g) <==> h == g || (h in gs && h.tag != g.tag)
  {
    var p := Place(gs, g.tag);
    if p < |gs| && gs[p].tag == g.tag {
      assert Put(gs, g) == gs[p := g];
      forall k | 0 <= k < |gs| && k != p
        ensures gs[k] in gs[p := g]
      {
        assert gs[p := g][k] == gs[k];
      }
      assert gs[p := g][p] == g;
    } else {
      InsertedAt(gs, p, g);
      AscendingWith(gs, p, g, Put(gs, g));
    }
  }

  lemma AscendingWith(gs: seq<Group>, p: nat, g: Group, r: seq<Group>)
    requires Ascending(gs) && IsInserted(gs, p, g, r)
    requires forall k :: 0 <= k < p ==> gs[k].tag < g.tag
    requires p < |gs| ==> g.tag < gs[p].tag
    ensures Ascending(r)
    ensures forall h :: h in r <==> h == g || (h in gs && h.tag != g.tag)
  {
    InsertedMembers(gs, p, g, r);
    assert forall k :: p < k < |gs| ==> gs[p].tag < gs[k].tag;
  }

  lemma DroppedRemoves(gs: seq<Group>, tag: int)
    requires Ascending(gs)
    ensures Ascending(Dropped(gs, tag))
    ensures forall h :: h in Dropped(gs, tag) <==> h in gs && h.tag != tag
  {
    var i := FindGroup(gs, tag);
    if i < |gs| {
      RemovedAt(gs, i);
      AscendingWithout(gs, i, Dropped(gs, tag));
    } else {
      assert forall k :: 0 <= k < |gs| ==> gs[k].tag != tag;
    }
  }

  lemma AscendingWithout(gs: seq<Group>, i: nat, r: seq<Group>)
    requires Ascending(gs) && IsRemoved(gs, i, r)
    ensures Ascending(r)
    ensures forall h :: h in r <==> h in gs && h.tag != gs[i].tag
  {
    RemovedMembers(gs, i, r);
  }

  lemma InstancesOfMember(gs: seq<Group>, g: Group)
    requires Ascending(gs) && g in gs
    ensures InstancesOf(gs, g.tag) == g.instances
  {
    var k :| 0 <= k < |gs| && gs[k] == g;
    assert FindGroup(gs, g.tag) == k;
  }

  // ---- Whole maps ----

  predicate WholeGroup(fs: seq<Field>, g: Group) {
    Counts(fs, g) && AllWhole(g.instances)
  }

  predicate WholeGroups(fs: seq<Field>, gs: seq<Group>) {
    forall g :: g in gs ==> WholeGroup(fs, g)
  }

  lemma WholeIs(c: Content)
    ensures Whole(c) <==> DistinctTags(c.fields) && Ascending(c.groups) && WholeGroups(c.fields, c.groups)
  {
    if Whole(c) {
      forall g | g in c.groups
        ensures WholeGroup(c.fields, g)
      {
        var i :| 0 <= i < |c.groups| && c.groups[i] == g;
        assert Counts(c.fields, c.groups[i]);
      }
    }
    if DistinctTags(c.fields) && Ascending(c.groups) && WholeGroups(c.fields, c.groups) {
      forall i | 0 <= i < |c.groups|
        ensures WholeGroup(c.fields, c.groups[i])
      {
      }
      assert forall i :: 0 <= i < |c.groups| ==> Counts(c.fields, c.groups[i]);
    }
  }

  /** A change under one tag keeps a map whole if the group of that tag is whole afterwards. */
  lemma WholeAfter(c: Content, d: Content, tag: int)
    requires Whole(c) && DistinctTags(d.fields) && Ascending(d.groups)
    requires forall f :: f in c.fields && f.tag != tag ==> f in d.fields
    requires forall g :: g in d.groups && g.tag != tag ==> g in c.groups
    requires forall g :: g in d.groups && g.tag == tag ==> WholeGroup(d.fields, g)
    ensures Whole(d)
  {
    hide Whole, AllWhole;
    WholeIs(c);
    forall g | g in d.groups
      ensures WholeGroup(d.fields, g)
    {
      if g.tag != tag {
        assert WholeGroup(c.fields, g);
      }
    }
    WholeIs(d);
  }

  // ---- The operations on values ----

  function WithInstances(c: Content, tag: int, instances: seq<Content>, less: MessageOrder): Content {
    Content(WithField(c.fields, Field(tag, CountText(|instances|)), less), Put(c.groups, Group(tag, instances)))
  }

  function WithoutGroup(c: Content, tag: int): Content {
    if FindGroup(c.groups, tag) == |c.groups| then c
    else Content(WithoutField(c.fields, tag), Dropped(c.groups, tag))
  }

  function Added(c: Content, tag: int, x: Content, setCount: bool, less: MessageOrder): Content {
    var instances := InstancesOf(c.groups, tag) + [x];
    if setCount then WithInstances(c, tag, instances, less)
    else c.(groups := Put(c.groups, Group(tag, instances)))
  }

  /** Instances are numbered from 1; a number out of range changes nothing. */
  function WithoutInstance(c: Content, num: int, tag: int, less: MessageOrder): Content {
    var instances := InstancesOf(c.groups, tag);
    if num <= 0 || |instances| < num then c
    else if |instances| == 1 then WithoutGroup(c, tag)
    else WithInstances(c, tag, instances[..num - 1] + instances[num..], less)
  }

  function WithReplaced(c: Content, num: int, tag: int, x: Content): Content {
    var instances := InstancesOf(c.groups, tag);
    if num <= 0 || |instances| < num then c
    else c.(groups := Put(c.groups, Group(tag, instances[num - 1 := x])))
  }

  /** A field can be set without harm unless it is the count of a group and says something else. */
  lemma SetFieldKeepsWholeExactlyWhen(c: Content, f: Field, less: MessageOrder)
    requires IsMessageOrder(less) && InOrder(c.fields, less) && Whole(c)
    ensures Whole(c.(fields := WithField(c.fields, f, less)))
       <==> var n := |InstancesOf(c.groups, f.tag)|; n == 0 || f.text == CountText(n)
  {
    hide Whole, AllWhole, WithField, CountText;
    var d := c.(fields := WithField(c.fields, f, less));
    WithFieldSets(c.fields, f, less);
    WholeIs(c);
    WholeIs(d);
    var i := FindGroup(c.groups, f.tag);
    if i < |c.groups| {
      var g := c.groups[i];
      assert WholeGroup(c.fields, g);
      InstancesOfMember(c.groups, g);
      if f.text == CountText(|g.instances|) {
        OneGroup(c.groups, g);
        WholeAfter(c, d, f.tag);
      }
      if Whole(d) {
        assert WholeGroup(d.fields, g);
        assert Field(g.tag, CountText(|g.instances|)) in d.fields;
      }
    } else {
      assert forall g :: g in d.groups ==> g.tag != f.tag;
      WholeAfter(c, d, f.tag);
    }
  }

  lemma OneGroup(gs: seq<Group>, g: Group)
    requires Ascending(gs) && g in gs
    ensures forall h :: h in gs && h.tag == g.tag ==> h == g
  {
  }

  lemma WithInstancesIsWhole(c: Content, tag: int, instances: seq<Content>, less: MessageOrder)
    requires IsMessageOrder(less) && InOrder(c.fields, less) && Whole(c)
    requires instances != [] && AllWhole(instances)
    ensures Whole(WithInstances(c, tag, instances, less))
  {
    hide Whole, AllWhole, WithField, Put, CountText;
    var d, f, g := WithInstances(c, tag, instances, less), Field(tag, CountText(|instances|)), Group(tag, instances);
    WholeIs(c);
    WithFieldSets(c.fields, f, less);
    PutReplaces(c.groups, g);
    assert f in d.fields;
    assert WholeGroup(d.fields, g);
    WholeAfter(c, d, tag);
  }

  lemma WithoutGroupIsWhole(c: Content, tag: int, less: MessageOrder)
    requires InOrder(c.fields, less) && Whole(c)
    ensures Whole(WithoutGroup(c, tag))
  {
    hide Whole, AllWhole, WithoutField, Dropped;
    WholeIs(c);
    WithoutFieldRemoves(c.fields, tag, less);
    DroppedRemoves(c.groups, tag);
    if FindGroup(c.groups, tag) < |c.groups| {
      WholeAfter(c, WithoutGroup(c, tag), tag);
    }
  }

  lemma InstancesAreWhole(c: Content, tag: int)
    requires Whole(c)
    ensures AllWhole(InstancesOf(c.groups, tag))
  {
    hide Whole, AllWhole;
    WholeIs(c);
    var i := FindGroup(c.groups, tag);
    if i < |c.groups| {
      assert WholeGroup(c.fields, c.groups[i]);
    } else {
      NoneIsWhole();
    }
  }

  lemma NoneIsWhole()
    ensures AllWhole([])
  {
  }

  lemma AddedIsWhole(c: Content, tag: int, x: Content, less: MessageOrder)
    requires IsMessageOrder(less) && InOrder(c.fields, less) && Whole(c) && Whole(x)
    ensures Whole(Added(c, tag, x, true, less))
  {
    hide WithInstances, Whole;
    InstancesAreWhole(c, tag);
    WithInstancesIsWhole(c, tag, InstancesOf(c.groups, tag) + [x], less);
  }

  lemma WithoutInstanceIsWhole(c: Content, num: int, tag: int, less: MessageOrder)
    requires IsMessageOrder(less) && InOrder(c.fields, less) && Whole(c)
    ensures Whole(WithoutInstance(c, num, tag, less))
  {
    hide WithInstances, WithoutGroup, Whole;
    var instances := InstancesOf(c.groups, tag);
    InstancesAreWhole(c, tag);
    WithoutGroupIsWhole(c, tag, less);
    if 0 < num <= |instances| && |instances| > 1 {
      var rest := instances[..num - 1] + instances[num..];
      assert AllWhole(rest);
      WithInstancesIsWhole(c, tag, rest, less);
    }
  }

  lemma WithReplacedIsWhole(c: Content, num: int, tag: int, x: Content)
    requires Whole(c) && Whole(x)
    ensures Whole(WithReplaced(c, num, tag, x))
  {
    hide Whole, Put, CountText;
    var instances := InstancesOf(c.groups, tag);
    if 0 < num <= |instances| {
      var g := Group(tag, instances[num - 1 := x]);
      var d := c.(groups := Put(c.groups, g));
      WholeIs(c);
      InstancesAreWhole(c, tag);
      PutReplaces(c.groups, g);
      var i := FindGroup(c.groups, tag);
      assert WholeGroup(c.fields, c.groups[i]);
      assert WholeGroup(d.fields, g);
      WholeAfter(c, d, tag);
    }
  }

  // ---- The object ----

  lemma FirstWithTag(fs: seq<Field>, tag: int, i: nat)
    requires i <= |fs| && (i < |fs| ==> fs[i].tag == tag)
    requires forall k :: 0 <= k < i ==> fs[k].tag != tag
    ensures FindTag(fs, tag) == i
  {
  }

  /** Where the binary search stops, the first field of the tag is, if there is one. */
  lemma LowerBoundFinds(fs: seq<Field>, tag: int, p: nat, less: MessageOrder)
    requires IsMessageOrder(less) && InOrder(fs, less) && p <= |fs|
    requires forall k :: 0 <= k < p ==> less(fs[k].tag, tag)
    requires forall k :: p <= k < |fs| ==> !less(fs[k].tag, tag)
    ensures FindTag(fs, tag) == if p < |fs| && fs[p].tag == tag then p else |fs|
  {
    if p < |fs| && fs[p].tag != tag {
      forall k | p < k < |fs|
        ensures fs[k].tag != tag
      {
        assert !less(fs[k].tag, fs[p].tag);
      }
      FirstWithTag(fs, tag, |fs|);
    } else {
      FirstWithTag(fs, tag, p);
    }
  }

  lemma UpperBoundIs(fs: seq<Field>, tag: int, p: nat, less: MessageOrder)
    requires p <= |fs| && (p < |fs| ==> less(tag, fs[p].tag))
    requires forall k :: 0 <= k < p ==> !less(tag, fs[k].tag)
    ensures PositionFor(fs, tag, less) == p
  {
  }

  const DEFAULT_SIZE := 16

  class FieldMap {
    const order: MessageOrder
    var fields: seq<Field>
    var groups: seq<Group>

    constructor (order: MessageOrder)
      ensures this.order == order && Contents() == Content([], [])
    {
      this.order := order;
      fields, groups := [], [];
    }

    function Contents(): Content
      reads this
    {
      Content(fields, groups)
    }

    ghost predicate Valid()
      reads this
    {
      IsMessageOrder(order) && InOrder(fields, order) && Ascending(groups)
    }

    /** A linear search in a short list, a binary search in a long one: the same field. */
    method Lookup(tag: int) returns (i: nat)
      requires Valid()
      ensures i == FindTag(fields, tag)
    {
      if |fields| < DEFAULT_SIZE {
        i := 0;
        while i < |fields| && fields[i].tag != tag
          invariant i <= |fields| && forall k :: 0 <= k < i ==> fields[k].tag != tag
        {
          i := i + 1;
        }
        FirstWithTag(fields, tag, i);
      } else {
        i := LowerBound(tag);
        LowerBoundFinds(fields, tag, i, order);
        if i < |fields| && fields[i].tag != tag {
          i := |fields|;
        }
      }
    }

    method LowerBound(tag: int) returns (p: nat)
      requires Valid()
      ensures p <= |fields|
      ensures forall k :: 0 <= k < p ==> order(fields[k].tag, tag)
      ensures forall k :: p <= k < |fields| ==> !order(fields[k].tag, tag)
    {
      p := 0;
      var count: nat := |fields|;
      while count > 0
        invariant p + count <= |fields|
        invariant forall k :: 0 <= k < p ==> order(fields[k].tag, tag)
        invariant forall k :: p + count <= k < |fields| ==> !order(fields[k].tag, tag)
      {
        var step := count / 2;
        var mid := p + step;
        if order(fields[mid].tag, tag) {
          AllBelow(fields, mid, tag, order);
          p, count := mid + 1, count - step - 1;
        } else {
          NoneBelow(fields, mid, tag, order);
          count := step;
        }
      }
    }

    /** Behind the fields that do not come after the tag; a tag that does not come before the last
        one goes to the end at once. */
    method FindPositionFor(tag: int) returns (p: nat)
      requires Valid()
      ensures p == PositionFor(fields, tag, order)
    {
      if fields == [] {
        return 0;
      }
      var last := fields[|fields| - 1];
      if order(last.tag, tag) || last.tag == tag {
        NoneAbove(fields, |fields| - 1, tag, order);
        UpperBoundIs(fields, tag, |fields|, order);
        return |fields|;
      }
      p := 0;
      var count: nat := |fields|;
      while count > 0
        invariant p + count <= |fields|
        invariant forall k :: 0 <= k < p ==> !order(tag, fields[k].tag)
        invariant p + count < |fields| ==> order(tag, fields[p + count].tag)
      {
        var step := count / 2;
        var mid := p + step;
        if !order(tag, fields[mid].tag) {
          NoneAbove(fields, mid, tag, order);
          p, count := mid + 1, count - step - 1;
        } else {
          count := step;
        }
      }
      UpperBoundIs(fields, tag, p, order);
    }

    method AddField(f: Field)
      requires Valid()
      modifies this`fields
      ensures Valid() && fields == Inserted(old(fields), f, order)
    {
      InsertedKeepsOrder(fields, f, order);
      var p := FindPositionFor(f.tag);
      fields := fields[..p] + [f] + fields[p..];
    }

    /** Without `overwrite` a second field of the tag is added behind the first. */
    method SetField(f: Field, overwrite: bool)
      requires Valid()
      modifies this`fields
      ensures Valid() && fields == if overwrite then WithField(old(fields), f, order)
              else Inserted(old(fields), f, order)
    {
      WithFieldSets(fields, f, order);
      if !overwrite {
        AddField(f);
      } else {
        var i := Lookup(f.tag);
        if i == |fields| {
          AddField(f);
        } else {
          fields := fields[i := fields[i].(text := f.text)];
        }
      }
    }

    /** The text of a field; `None` stands for the field-not-found error. */
    method GetField(tag: int) returns (r: Option<string>)
      requires Valid()
      ensures r.None? <==> !HasTag(fields, tag)
      ensures r.Some? ==> Field(tag, r.value) in fields
    {
      var i := Lookup(tag);
      if i == |fields| {
        return None;
      }
      assert fields[i] == Field(tag, fields[i].text);
      return Some(fields[i].text);
    }

    method RemoveField(tag: int)
      requires Valid()
      modifies this`fields
      ensures Valid() && fields == WithoutField(old(fields), tag)
    {
      WithoutFieldRemoves(fields, tag, order);
      var i := Lookup(tag);
      if i != |fields| {
        fields := fields[..i] + fields[i + 1..];
      }
    }

    method AddGroup(tag: int, group: Content, setCount: bool)
      requires Valid()
      modifies this
      ensures Valid() && Contents() == Added(old(Contents()), tag, group, setCount, order)
    {
      hide Put, InstancesOf, WithField, Inserted, CountText;
      var instances := InstancesOf(groups, tag) + [group];
      PutReplaces(groups, Group(tag, instances));
      groups := Put(groups, Group(tag, instances));
      if setCount {
        SetField(Field(tag, CountText(|instances|)), true);
      }
    }

    method ReplaceGroup(num: int, tag: int, group: Content)
      requires Valid()
      modifies this`groups
      ensures Valid() && Contents() == WithReplaced(old(Contents()), num, tag, group)
    {
      hide Put, InOrder;
      var i := FindGroup(groups, tag);
      if i == |groups| || num <= 0 || |groups[i].instances| < num {
        return;
      }
      var instances := groups[i].instances[num - 1 := group];
      PutReplaces(groups, Group(tag, instances));
      groups := Put(groups, Group(tag, instances));
    }

    method RemoveInstance(num: int, tag: int)
      requires Valid()
      modifies this
      ensures Valid() && Contents() == WithoutInstance(old(Contents()), num, tag, order)
    {
      hide Put, Dropped, WithField, WithoutField, Inserted, CountText;
      var i := FindGroup(groups, tag);
      if i == |groups| || num <= 0 || |groups[i].instances| < num {
        return;
      }
      var rest := groups[i].instances[..num - 1] + groups[i].instances[num..];
      if |rest| == 0 {
        DroppedRemoves(groups, tag);
        groups := Dropped(groups, tag);
        RemoveField(tag);
      } else {
        PutReplaces(groups, Group(tag, rest));
        groups := Put(groups, Group(tag, rest));
        SetField(Field(tag, CountText(|rest|)), true);
      }
    }

    method RemoveGroup(tag: int)
      requires Valid()
      modifies this
      ensures Valid() && Contents() == WithoutGroup(old(Contents()), tag)
    {
      hide Dropped, WithoutField;
      var i := FindGroup(groups, tag);
      if i == |groups| {
        return;
      }
      DroppedRemoves(groups, tag);
      RemoveField(tag);
      groups := Dropped(groups, tag);
    }

    function GroupCount(tag: int): nat
      reads this
    {
      |InstancesOf(groups, tag)|
    }

    method Clear()
      requires Valid()
      modifies this
      ensures Valid() && Contents() == Content([], [])
    {
      fields, groups := [], [];
    }
  }

  lemma AllBelow(fs: seq<Field>, mid: nat, tag: int, less: MessageOrder)
    requires IsMessageOrder(less) && InOrder(fs, less) && mid < |fs| && less(fs[mid].tag, tag)
    ensures forall k :: 0 <= k <= mid ==> less(fs[k].tag, tag)
  {
    forall k | 0 <= k < mid
      ensures less(fs[k].tag, tag)
    {
      assert !less(fs[mid].tag, fs[k].tag);
    }
  }

  lemma NoneBelow(fs: seq<Field>, mid: nat, tag: int, less: MessageOrder)
    requires IsMessageOrder(less) && InOrder(fs, less) && mid < |fs| && !less(fs[mid].tag, tag)
    ensures forall k :: mid <= k < |fs| ==> !less(fs[k].tag, tag)
  {
    forall k | mid < k < |fs|
      ensures !less(fs[k].tag, tag)
    {
      assert !less(fs[k].tag, fs[mid].tag);
    }
  }

  lemma NoneAbove(fs: seq<Field>, mid: nat, tag: int, less: MessageOrder)
    requires IsMessageOrder(less) && InOrder(fs, less) && mid < |fs| && !less(tag, fs[mid].tag)
    ensures forall k :: 0 <= k <= mid ==> !less(tag, fs[k].tag)
  {
    forall k | 0 <= k < mid
      ensures !less(tag, fs[k].tag)
    {
      assert !less(fs[mid].tag, fs[k].tag);
    }
  }
}
