/** What the callbacks of a request do to the application orders. */
module OrdersAfter {
  import opened Orders
  import opened Accounting
  import opened DepthSpec

  /** One order after it has been filled for `q` more, at a cost of `c`. */
  predicate FilledBy(o: Order, o': Order, q: nat, c: nat) {
    o' == o.(filled := o.filled + q, filledCost := o.filledCost + c, state := o'.state)
  }

  /** The orders after some fills; orders in `closed` may also have been cancelled. An order
      that is not filled up and not closed keeps its state. */
  ghost predicate After(orders: OrderMap, fills: seq<Callback>, closed: set<OrderId>, orders': OrderMap) {
    && orders'.Keys == orders.Keys
    && forall x :: x in orders ==>
         && FilledBy(orders[x], orders'[x], FillsOf(fills, x), CostOf(fills, x))
         && (orders'[x].filled < orders[x].qty && x !in closed ==> orders'[x].state == orders[x].state)
  }

  lemma {:induction false} ApplyAllAppend(orders: OrderMap, a: seq<Callback>, b: seq<Callback>)
    ensures ApplyAll(orders, a + b) == ApplyAll(ApplyAll(orders, a), b)
    decreases |a|
  {
    if a == [] {
      assert a + b == b;
    } else {
      assert (a + b)[0] == a[0] && (a + b)[1..] == a[1..] + b;
      ApplyAllAppend(ApplyCallback(orders, a[0]), a[1..], b);
    }
  }

  ghost predicate AllFills(cbs: seq<Callback>) {
    forall i :: 0 <= i < |cbs| ==> cbs[i].FillCb?
  }

  lemma AfterCompose(orders: OrderMap, a: seq<Callback>, mid: OrderMap, b: seq<Callback>, closed: set<OrderId>,
                     orders': OrderMap)
    requires After(orders, a, closed, mid) && After(mid, b, closed, orders')
    ensures After(orders, a + b, closed, orders')
  {
    forall x | x in orders
      ensures FilledBy(orders[x], orders'[x], FillsOf(a + b, x), CostOf(a + b, x))
      ensures orders'[x].filled < orders[x].qty && x !in closed ==> orders'[x].state == orders[x].state
    {
      FillsOfAppend(a, b, x);
      CostOfAppend(a, b, x);
      assert x in mid && FilledBy(orders[x], mid[x], FillsOf(a, x), CostOf(a, x));
      assert FilledBy(mid[x], orders'[x], FillsOf(b, x), CostOf(b, x));
    }
  }

  lemma FillOneEffect(orders: OrderMap, id: OrderId, q: nat, price: nat, x: OrderId)
    requires x in orders
    ensures var orders' := FillOne(orders, id, q, price);
            && orders'.Keys == orders.Keys
            && FilledBy(orders[x], orders'[x], if x == id then q else 0, if x == id then q * price else 0)
            && (orders'[x].filled < orders[x].qty ==> orders'[x].state == orders[x].state)
  {
  }

  lemma OneFill(orders: OrderMap, cb: Callback)
    requires cb.FillCb?
    ensures After(orders, [cb], {}, ApplyCallback(orders, cb))
  {
    var mid := FillOne(orders, cb.matched, cb.quantity, cb.price);
    var orders' := FillOne(mid, cb.order, cb.quantity, cb.price);
    assert orders'.Keys == mid.Keys == orders.Keys;
    forall x | x in orders
      ensures FilledBy(orders[x], orders'[x], FillsOf([cb], x), CostOf([cb], x))
      ensures orders'[x].filled < orders[x].qty ==> orders'[x].state == orders[x].state
    {
      FillOneEffect(orders, cb.matched, cb.quantity, cb.price, x);
      FillOneEffect(mid, cb.order, cb.quantity, cb.price, x);
      FillsOfOne(cb, x);
    }
  }

  lemma FillsOfOne(cb: Callback, x: OrderId)
    requires cb.FillCb?
    ensures FillsOf([cb], x)
            == (if cb.order == x then cb.quantity else 0) + (if cb.matched == x then cb.quantity else 0)
    ensures CostOf([cb], x)
            == (if cb.order == x then cb.quantity * cb.price else 0)
               + (if cb.matched == x then cb.quantity * cb.price else 0)
  {
    assert [cb][1..] == [];
  }

  lemma {:induction false} FillsApply(orders: OrderMap, fills: seq<Callback>)
    requires AllFills(fills)
    ensures After(orders, fills, {}, ApplyAll(orders, fills))
    decreases |fills|
  {
    if fills != [] {
      var mid := ApplyCallback(orders, fills[0]);
      OneFill(orders, fills[0]);
      FillsApply(mid, fills[1..]);
      AfterCompose(orders, [fills[0]], mid, fills[1..], {}, ApplyAll(orders, fills));
      assert fills == [fills[0]] + fills[1..];
    }
  }

  lemma AfterWeaken(orders: OrderMap, fills: seq<Callback>, closed: set<OrderId>, orders': OrderMap)
    requires After(orders, fills, {}, orders')
    ensures After(orders, fills, closed, orders')
  {
  }

  /** A cancellation closes the order it names. */
  lemma CancelApplies(orders: OrderMap, id: OrderId, q: nat)
    ensures After(orders, [], {id}, ApplyAll(orders, [CancelCb(id, q)]))
  {
    assert ApplyAll(orders, [CancelCb(id, q)]) == ApplyCallback(orders, CancelCb(id, q));
  }

  lemma ThenBookUpdate(orders: OrderMap, cb: Callback)
    ensures ApplyAll(orders, [cb, BookUpdateCb]) == ApplyCallback(orders, cb)
  {
    assert [cb, BookUpdateCb][1..] == [BookUpdateCb];
    BookUpdateApplies(ApplyCallback(orders, cb));
  }

  lemma BookUpdateApplies(orders: OrderMap)
    ensures ApplyAll(orders, [BookUpdateCb]) == orders
  {
  }
}
