/** Folding the fills of the engine over a depth that agrees with the book gives a depth
    that agrees with the book afterwards; no lookup misses and no counter goes wrong. */
module DepthRuns {
  import opened Orders
  import opened Books
  import opened Faces
  import opened Accounting
  import opened BookRuns
  import opened Options
  import opened DepthSpec

  /** The level a set of live orders amounts to. */
  function LevelOf(env: OrderMap, live: seq<Tracker>, buy: bool, price: nat): Level {
    Level(Sum(CountAt(env, buy, price), live), Sum(QtyAt(env, buy, price), live))
  }

  /** The depth shows, at every price, exactly the live limit orders at that price. */
  ghost predicate Agrees(d: AbsDepth, env: OrderMap, live: seq<Tracker>) {
    && d.bid.WellFormed() && d.ask.WellFormed()
    && forall buy, price :: price != 0 ==> d.Side(buy).At(price) == LevelOf(env, live, buy, price)
  }

  ghost predicate SameSums(a: seq<Tracker>, b: seq<Tracker>) {
    forall w :: Sum(w, a) == Sum(w, b)
  }

  lemma AgreesWithSame(d: AbsDepth, env: OrderMap, a: seq<Tracker>, b: seq<Tracker>)
    requires Agrees(d, env, a) && SameSums(a, b)
    ensures Agrees(d, env, b)
  {
    forall buy, price | price != 0
      ensures d.Side(buy).At(price) == LevelOf(env, b, buy, price)
    {
      assert Sum(CountAt(env, buy, price), a) == Sum(CountAt(env, buy, price), b);
      assert Sum(QtyAt(env, buy, price), a) == Sum(QtyAt(env, buy, price), b);
    }
  }

  /** The live orders change in one order only: `t` becomes `t'`. */
  ghost predicate Becomes(live: seq<Tracker>, t: Tracker, live': seq<Tracker>, t': Tracker) {
    && (forall w :: Sum(w, live') + WeightOf(w, t) == Sum(w, live) + WeightOf(w, t'))
    && (forall w :: WeightOf(w, t) <= Sum(w, live))
  }

  /** Taking `qty` off one level, and one order when it is filled. */
  lemma ReduceLevel(s: DepthSide, price: nat, qty: nat, filled: bool)
    requires s.WellFormed() && price in s.levels
    requires 0 < qty <= s.levels[price].qty
    requires filled && s.levels[price].count == 1 ==> s.levels[price].qty == qty
    ensures s.(ignoreQty := 0).FillOrder(price, qty, filled)
            == (if filled then s.(ignoreQty := 0).CloseOrder(price, qty)
                else s.(ignoreQty := 0).ChangeQty(price, 0 - qty))
    ensures var r := if filled then s.CloseOrder(price, qty) else s.ChangeQty(price, 0 - qty);
            && r.Some? && r.value.WellFormed() && r.value.ignoreQty == s.ignoreQty
            && forall p :: r.value.At(p) == if p == price
                 then Level(s.At(p).count - (if filled then 1 else 0), s.At(p).qty - qty)
                 else s.At(p)
  {
  }

  /** One end of a fill, for an order the depth shows. */
  lemma FillEndAgrees(d: AbsDepth, env: OrderMap, live: seq<Tracker>, t: Tracker, qty: nat, live': seq<Tracker>)
    requires Agrees(d, env, live) && 0 < qty <= t.openQty && Becomes(live, t, live', t.Reduce(qty))
    requires d.Side(IsBuy(env, t.ptr)).ignoreQty == 0
    ensures var r := FillEnd(d, env, t.ptr, qty, qty == t.openQty);
            && r.Some? && Agrees(r.value, env, live')
            && r.value.bid.ignoreQty == d.bid.ignoreQty && r.value.ask.ignoreQty == d.ask.ignoreQty
  {
    hide Sum;
    var t' := t.Reduce(qty);
    var buy, price := IsBuy(env, t.ptr), PriceOf(env, t.ptr);
    if price != 0 {
      var c, q := CountAt(env, buy, price), QtyAt(env, buy, price);
      assert WeightOf(c, t) <= Sum(c, live) && WeightOf(q, t) <= Sum(q, live);
      assert Sum(c, live') + WeightOf(c, t) == Sum(c, live) + WeightOf(c, t');
      assert Sum(q, live') + WeightOf(q, t) == Sum(q, live) + WeightOf(q, t');
      assert d.Side(buy).At(price) == LevelOf(env, live, buy, price);
      if Sum(c, live') == 0 {
        EmptyLevelHasNoQty(env, buy, price, live');
      }
      ReduceLevel(d.Side(buy), price, qty, qty == t.openQty);
    }
    var r := FillEnd(d, env, t.ptr, qty, qty == t.openQty);
    forall b, p | p != 0
      ensures r.value.Side(b).At(p) == LevelOf(env, live', b, p)
    {
      LevelOfBecomes(env, live, t, live', t', b, p);
      assert d.Side(b).At(p) == LevelOf(env, live, b, p);
    }
  }

  /** A level changes only when it is the level of the order that changed. */
  lemma LevelOfBecomes(env: OrderMap, live: seq<Tracker>, t: Tracker, live': seq<Tracker>, t': Tracker, buy: bool,
                       price: nat)
    requires Becomes(live, t, live', t') && t'.ptr == t.ptr
    ensures buy != IsBuy(env, t.ptr) || price != PriceOf(env, t.ptr) ==>
            LevelOf(env, live', buy, price) == LevelOf(env, live, buy, price)
    ensures buy == IsBuy(env, t.ptr) && price == PriceOf(env, t.ptr) ==>
              var l, l' := LevelOf(env, live, buy, price), LevelOf(env, live', buy, price);
              && l'.count + (if t.openQty > 0 then 1 else 0) == l.count + (if t'.openQty > 0 then 1 else 0)
              && l'.qty + t.openQty == l.qty + t'.openQty
  {
    var c, q := CountAt(env, buy, price), QtyAt(env, buy, price);
    assert Sum(c, live') + WeightOf(c, t) == Sum(c, live) + WeightOf(c, t');
    assert Sum(q, live') + WeightOf(q, t) == Sum(q, live) + WeightOf(q, t');
  }

  // ---- A run of fills ----

  /** Folding fills: they change neither the price, the side nor the size of any order. */
  function FoldFills(d: AbsDepth, env: OrderMap, cbs: seq<Callback>): Option<AbsDepth>
    decreases |cbs|
  {
    if cbs == [] then Some(d)
    else match OnCallback(d, env, cbs[0])
      case None => None
      case Some(d') => FoldFills(d', env, cbs[1..])
  }

  lemma {:induction false} FoldFillsAppend(d: AbsDepth, env: OrderMap, a: seq<Callback>, b: seq<Callback>)
    requires FoldFills(d, env, a).Some?
    ensures FoldFills(d, env, a + b) == FoldFills(FoldFills(d, env, a).value, env, b)
    decreases |a|
  {
    if a == [] {
      assert a + b == b;
    } else {
      assert (a + b)[0] == a[0] && (a + b)[1..] == a[1..] + b;
      FoldFillsAppend(OnCallback(d, env, a[0]).value, env, a[1..], b);
    }
  }

  lemma SettleBecomes(others: seq<Tracker>, s: seq<Entry>, k: nat, t: Tracker)
    requires k < |s|
    ensures Becomes(others + Trackers(s), s[k].tracker, others + Trackers(Settle(s, k, t)), t)
  {
    forall w: Weight
      ensures Sum(w, others + Trackers(Settle(s, k, t))) + WeightOf(w, s[k].tracker)
              == Sum(w, others + Trackers(s)) + WeightOf(w, t)
      ensures WeightOf(w, s[k].tracker) <= Sum(w, others + Trackers(s))
    {
      SumAppend(w, others, Trackers(s));
      SumAppend(w, others, Trackers(Settle(s, k, t)));
      SumSettle(w, s, k, t);
      SumAtLeast(w, Trackers(s), k);
    }
  }

  lemma MiddleBecomes(a: seq<Tracker>, t: Tracker, t': Tracker, b: seq<Tracker>)
    ensures Becomes(a + [t] + b, t, a + [t'] + b, t')
  {
    forall w: Weight
      ensures Sum(w, a + [t'] + b) + WeightOf(w, t) == Sum(w, a + [t] + b) + WeightOf(w, t')
      ensures WeightOf(w, t) <= Sum(w, a + [t] + b)
    {
      SumAppend(w, a, [t]);
      SumAppend(w, a, [t']);
      SumAppend(w, a + [t], b);
      SumAppend(w, a + [t'], b);
      SumOne(w, t);
      SumOne(w, t');
    }
  }

  ghost predicate NothingIgnored(d: AbsDepth) {
    d.bid.ignoreQty == 0 && d.ask.ignoreQty == 0
  }

  /** The depth agrees with a face and some other live orders. */
  ghost predicate FaceAgrees(d: AbsDepth, v: View, others: seq<Tracker>, f: Face) {
    Agrees(d, v.denv, others + [f.inbound] + Trackers(f.side)) && NothingIgnored(d)
  }

  lemma FillAgrees(v: View, price: nat, f: Face, cb: Callback, d: AbsDepth, others: seq<Tracker>)
    requires ValidFill(v.env, price, f, cb) && FaceAgrees(d, v, others, f)
    ensures var r := OnCallback(d, v.denv, cb); r.Some? && FaceAgrees(r.value, v, others, ApplyFill(f, cb))
  {
    var k := IndexOf(f.side, cb.matched);
    var cur := f.side[k].tracker;
    var q := cb.quantity;
    var side' := Settle(f.side, k, cur.Reduce(q));
    SettleBecomes(others + [f.inbound], f.side, k, cur.Reduce(q));
    FillEndAgrees(d, v.denv, others + [f.inbound] + Trackers(f.side), cur, q, others + [f.inbound] + Trackers(side'));
    var d' := FillEnd(d, v.denv, cb.matched, q, cb.matchedFilled).value;
    MiddleBecomes(others, f.inbound, f.inbound.Reduce(q), Trackers(side'));
    FillEndAgrees(d', v.denv, others + [f.inbound] + Trackers(side'), f.inbound, q,
                  others + [f.inbound.Reduce(q)] + Trackers(side'));
  }

  lemma {:induction false} RunAgrees(v: View, price: nat, f: Face, fills: seq<Callback>, g: Face, d: AbsDepth,
                                     others: seq<Tracker>)
    requires Runs(v.env, price, f, fills, g) && FaceAgrees(d, v, others, f)
    ensures var r := FoldFills(d, v.denv, fills); r.Some? && FaceAgrees(r.value, v, others, g)
    decreases |fills|
  {
    if fills != [] {
      FillAgrees(v, price, f, fills[0], d, others);
      RunAgrees(v, price, ApplyFill(f, fills[0]), fills[1..], g, OnCallback(d, v.denv, fills[0]).value, others);
    }
  }

  // ---- A run whose inbound order the depth was told to ignore ----

  /** The inbound limit order is not shown; its side ignores exactly what it has left. */
  ghost predicate FaceIgnores(d: AbsDepth, v: View, others: seq<Tracker>, f: Face) {
    var buy := IsBuy(v.denv, f.inbound.ptr);
    && PriceOf(v.denv, f.inbound.ptr) != 0
    && Agrees(d, v.denv, others + Trackers(f.side))
    && d.Side(buy).ignoreQty == f.inbound.openQty && d.Side(!buy).ignoreQty == 0
  }

  lemma IgnoredEnd(d: AbsDepth, env: OrderMap, live: seq<Tracker>, id: OrderId, qty: nat, filled: bool)
    requires Agrees(d, env, live) && PriceOf(env, id) != 0 && 0 < qty <= d.Side(IsBuy(env, id)).ignoreQty
    ensures var r, buy := FillEnd(d, env, id, qty, filled), IsBuy(env, id);
            && r.Some? && Agrees(r.value, env, live)
            && r.value.Side(buy).ignoreQty == d.Side(buy).ignoreQty - qty && r.value.Side(!buy) == d.Side(!buy)
  {
    var r := FillEnd(d, env, id, qty, filled).value;
    assert forall b, p :: r.Side(b).At(p) == d.Side(b).At(p);
  }

  lemma FillIgnored(v: View, price: nat, f: Face, cb: Callback, d: AbsDepth, others: seq<Tracker>)
    requires ValidFill(v.env, price, f, cb) && FaceIgnores(d, v, others, f)
    requires IsBuy(v.denv, f.inbound.ptr) != IsBuy(v.denv, cb.matched)
    ensures var r := OnCallback(d, v.denv, cb); r.Some? && FaceIgnores(r.value, v, others, ApplyFill(f, cb))
  {
    hide Settle, Becomes, Agrees, FillEnd;
    var k := IndexOf(f.side, cb.matched);
    var cur := f.side[k].tracker;
    var q := cb.quantity;
    var side' := Settle(f.side, k, cur.Reduce(q));
    SettleBecomes(others, f.side, k, cur.Reduce(q));
    FillEndAgrees(d, v.denv, others + Trackers(f.side), cur, q, others + Trackers(side'));
    var d' := FillEnd(d, v.denv, cb.matched, q, cb.matchedFilled).value;
    IgnoredEnd(d', v.denv, others + Trackers(side'), cb.order, q, cb.inboundFilled);
  }

  lemma {:induction false} RunIgnored(v: View, price: nat, f: Face, fills: seq<Callback>, g: Face, d: AbsDepth,
                                      others: seq<Tracker>, buySide: bool)
    requires Runs(v.env, price, f, fills, g) && FaceIgnores(d, v, others, f)
    requires SideOk(v, f.side, buySide) && IsBuy(v.denv, f.inbound.ptr) == !buySide
    ensures var r := FoldFills(d, v.denv, fills); r.Some? && FaceIgnores(r.value, v, others, g)
    decreases |fills|
  {
    if fills != [] {
      var cb := fills[0];
      var k := IndexOf(f.side, cb.matched);
      assert Resting(v, f.side[k], buySide);
      FillIgnored(v, price, f, cb, d, others);
      SettleShrinks(f.side, k, cb.quantity, buySide);
      ComesFromKeepsSide(v, ApplyFill(f, cb).side, f.side, buySide);
      RunIgnored(v, price, ApplyFill(f, cb), fills[1..], g, OnCallback(d, v.denv, cb).value, others, buySide);
    }
  }
}
