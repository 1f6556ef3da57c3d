/** The price-sorted multimaps of the book, as sequences of nodes, and the quantities
    that are conserved when nodes move, shrink and disappear. */
module Books {
  import opened Prices
  import opened Orders

  /** First node of the given order; the length of the sequence when there is none. */
  function IndexOf(s: seq<Entry>, id: OrderId): (k: nat)
    ensures k <= |s|
    ensures k < |s| ==> s[k].tracker.ptr == id
    ensures forall j :: 0 <= j < k ==> s[j].tracker.ptr != id
  {
    if s == [] then 0
    else if s[0].tracker.ptr == id then 0
    else 1 + IndexOf(s[1..], id)
  }

  function Erase(s: seq<Entry>, k: nat): seq<Entry>
    requires k < |s|
  {
    s[..k] + s[k + 1..]
  }

  /** A node after its order has traded: it goes once nothing is left open. */
  function Settle(s: seq<Entry>, k: nat, t: Tracker): seq<Entry>
    requires k < |s|
  {
    if t.openQty == 0 then Erase(s, k) else s[k := s[k].(tracker := t)]
  }

  /** Where a multimap inserts a key: after every key that is not greater. */
  function InsertPos(s: seq<Entry>, key: ComparablePrice): (k: nat)
    ensures k <= |s|
    ensures forall j :: 0 <= j < k ==> !key.Less(s[j].key)
    ensures k < |s| ==> key.Less(s[k].key)
  {
    if s == [] || key.Less(s[0].key) then 0 else 1 + InsertPos(s[1..], key)
  }

  function Insert(s: seq<Entry>, e: Entry): seq<Entry> {
    var k := InsertPos(s, e.key);
    s[..k] + [e] + s[k..]
  }

  function Trackers(s: seq<Entry>): (ts: seq<Tracker>)
    ensures |ts| == |s|
  {
    seq(|s|, k requires 0 <= k < |s| => s[k].tracker)
  }

  ghost predicate Sorted(s: seq<Entry>) {
    forall i, j :: 0 <= i < j < |s| ==> !s[j].key.Less(s[i].key)
  }

  ghost predicate OneSided(s: seq<Entry>, buySide: bool) {
    forall k :: 0 <= k < |s| ==> s[k].key.buySide == buySide
  }

  ghost predicate Distinct(s: seq<Entry>) {
    forall i, j :: 0 <= i < j < |s| ==> s[i].tracker.ptr != s[j].tracker.ptr
  }

  lemma IndexOfUnique(s: seq<Entry>, k: nat)
    requires k < |s| && Distinct(s)
    ensures IndexOf(s, s[k].tracker.ptr) == k
  {
  }

  lemma {:induction false} IndexOfAppend(s: seq<Entry>, tail: seq<Entry>, id: OrderId)
    requires IndexOf(s, id) < |s|
    ensures IndexOf(s + tail, id) == IndexOf(s, id)
  {
    if s[0].tracker.ptr != id {
      assert (s + tail)[1..] == s[1..] + tail;
      IndexOfAppend(s[1..], tail, id);
    }
  }

  /** Inserting keeps a side sorted, one-sided and distinct. */
  lemma InsertKeepsSide(s: seq<Entry>, e: Entry, buySide: bool)
    requires Sorted(s) && OneSided(s, buySide) && e.key.buySide == buySide
    ensures Sorted(Insert(s, e)) && OneSided(Insert(s, e), buySide)
    ensures Distinct(s) && (forall k :: 0 <= k < |s| ==> s[k].tracker.ptr != e.tracker.ptr) ==> Distinct(Insert(s, e))
  {
  }

  // ---- Additive measures over trackers with something open ----

  /** What one tracker contributes to a conserved total. */
  datatype Weight =
    | OpenOf(id: OrderId)                                    // open quantity of one order
    | LiveOf(id: OrderId)                                    // is the order there?
    | ExactAon(id: OrderId, qty: nat)                        // is it there, all-or-none, with exactly this open?
    | RegularOf(id: OrderId)                                 // is it there, and not all-or-none?
    | IocLimit(env: OrderMap)                                // is it an immediate-or-cancel limit order?
    | CountAt(env: OrderMap, buySide: bool, price: nat)      // orders at a depth level
    | QtyAt(env: OrderMap, buySide: bool, price: nat)        // quantity at a depth level

  function WeightOf(w: Weight, t: Tracker): nat {
    if t.openQty == 0 then 0
    else match w
      case OpenOf(id) => if t.ptr == id then t.openQty else 0
      case LiveOf(id) => if t.ptr == id then 1 else 0
      case ExactAon(id, q) => if t.ptr == id && t.aon && t.openQty == q then 1 else 0
      case RegularOf(id) => if t.ptr == id && !t.aon then 1 else 0
      case IocLimit(env) => if t.ioc && PriceOf(env, t.ptr) != MARKET_ORDER_PRICE then 1 else 0
      case CountAt(env, b, p) => if IsBuy(env, t.ptr) == b && PriceOf(env, t.ptr) == p then 1 else 0
      case QtyAt(env, b, p) => if IsBuy(env, t.ptr) == b && PriceOf(env, t.ptr) == p then t.openQty else 0
  }

  function Sum(w: Weight, ts: seq<Tracker>): nat {
    if ts == [] then 0 else WeightOf(w, ts[0]) + Sum(w, ts[1..])
  }

  lemma {:induction false} SumAppend(w: Weight, a: seq<Tracker>, b: seq<Tracker>)
    ensures Sum(w, a + b) == Sum(w, a) + Sum(w, b)
  {
    if a == [] {
      assert a + b == b;
    } else {
      assert (a + b)[1..] == a[1..] + b;
      SumAppend(w, a[1..], b);
    }
  }

  lemma SumSplit(w: Weight, ts: seq<Tracker>, k: nat)
    requires k < |ts|
    ensures Sum(w, ts) == Sum(w, ts[..k]) + WeightOf(w, ts[k]) + Sum(w, ts[k + 1..])
  {
    assert ts == ts[..k] + ts[k..];
    SumAppend(w, ts[..k], ts[k..]);
  }

  lemma SumOne(w: Weight, t: Tracker)
    ensures Sum(w, [t]) == WeightOf(w, t)
  {
    assert [t][1..] == [];
  }

  /** Settling a node changes every total by that node's own change. */
  lemma SumSettle(w: Weight, s: seq<Entry>, k: nat, t: Tracker)
    requires k < |s|
    ensures Sum(w, Trackers(s)) + WeightOf(w, t)
         == Sum(w, Trackers(Settle(s, k, t))) + WeightOf(w, s[k].tracker)
  {
    var ts := Trackers(s);
    SumSplit(w, ts, k);
    if t.openQty == 0 {
      assert Trackers(Erase(s, k)) == ts[..k] + ts[k + 1..];
      SumAppend(w, ts[..k], ts[k + 1..]);
    } else {
      var us := Trackers(s[k := s[k].(tracker := t)]);
      assert us[..k] == ts[..k] && us[k + 1..] == ts[k + 1..];
      SumSplit(w, us, k);
    }
  }

  lemma SumErase(w: Weight, s: seq<Entry>, k: nat)
    requires k < |s|
    ensures Sum(w, Trackers(s)) == Sum(w, Trackers(Erase(s, k))) + WeightOf(w, s[k].tracker)
  {
    SumSettle(w, s, k, s[k].tracker.(openQty := 0));
  }

  lemma SumInsert(w: Weight, s: seq<Entry>, e: Entry)
    ensures Sum(w, Trackers(Insert(s, e))) == Sum(w, Trackers(s)) + WeightOf(w, e.tracker)
  {
    var k := InsertPos(s, e.key);
    SumErase(w, Insert(s, e), k);
    assert Erase(Insert(s, e), k) == s;
  }

  lemma {:induction false} SumAtLeast(w: Weight, ts: seq<Tracker>, k: nat)
    requires k < |ts|
    ensures WeightOf(w, ts[k]) <= Sum(w, ts)
  {
    SumSplit(w, ts, k);
  }

  /** No order at a level means no quantity at it. */
  lemma {:induction false} EmptyLevelHasNoQty(env: OrderMap, buySide: bool, price: nat, ts: seq<Tracker>)
    requires Sum(CountAt(env, buySide, price), ts) == 0
    ensures Sum(QtyAt(env, buySide, price), ts) == 0
  {
    if ts != [] {
      EmptyLevelHasNoQty(env, buySide, price, ts[1..]);
    }
  }

}
