/** The matching algorithms of src/book/order_book.h as functions on values. Each one
    returns the new state together with the fills it emitted, in order. */
module Matching {
  import opened Prices
  import opened Orders
  import opened Books

  // ---- Market price and stop orders ----

  datatype StopBook = StopBook(marketPrice: nat, stopBids: seq<Entry>, stopAsks: seq<Entry>, pending: seq<Tracker>) {
    /** Orders held back by their stop price or waiting to be submitted. */
    function Load(): nat {
      |stopBids| + |stopAsks| + |pending|
    }
  }

  /** How many stop orders leave the front of the list: all up to the first key that
      sorts after the new price. */
  function ReleaseCount(until: ComparablePrice, stops: seq<Entry>): (n: nat)
    ensures n <= |stops|
  {
    if stops == [] || until.Less(stops[0].key) then 0 else 1 + ReleaseCount(until, stops[1..])
  }

  function SetMarketPrice(sb: StopBook, price: nat): (r: StopBook)
    ensures r.Load() == sb.Load()
    ensures r.marketPrice == price
  {
    var old' := sb.marketPrice;
    if price > old' || old' == MARKET_ORDER_PRICE then
      var n := ReleaseCount(ComparablePrice(true, price), sb.stopBids);
      sb.(marketPrice := price, stopBids := sb.stopBids[n..], pending := sb.pending + Trackers(sb.stopBids[..n]))
    else if price < old' then
      var n := ReleaseCount(ComparablePrice(false, price), sb.stopAsks);
      sb.(marketPrice := price, stopAsks := sb.stopAsks[n..], pending := sb.pending + Trackers(sb.stopAsks[..n]))
    else
      sb
  }

  // ---- One trade ----

  /** Resting price first, then the inbound order's, then the market price; zero when
      none of them is set. */
  function CrossPrice(env: OrderMap, inbound: OrderId, current: OrderId, marketPrice: nat): nat {
    if PriceOf(env, current) != MARKET_ORDER_PRICE then PriceOf(env, current)
    else if PriceOf(env, inbound) != MARKET_ORDER_PRICE then PriceOf(env, inbound)
    else marketPrice
  }

  function Min(a: nat, b: nat): nat {
    if a <= b then a else b
  }

  datatype Trade = Trade(inbound: Tracker, current: Tracker, stops: StopBook, qty: nat, fills: seq<Callback>)

  function CreateTrade(env: OrderMap, inbound: Tracker, current: Tracker, maxQty: nat, sb: StopBook): (r: Trade)
    ensures r.stops.Load() == sb.Load()
    ensures r.qty <= maxQty && r.qty <= inbound.openQty && r.qty <= current.openQty
    ensures r.inbound == inbound.(openQty := inbound.openQty - r.qty)
    ensures r.current == current.(openQty := current.openQty - r.qty)
    ensures r.qty == 0 <==> r.fills == []
    ensures sb.marketPrice != 0 ==> r.stops.marketPrice != 0
  {
    var price := CrossPrice(env, inbound.ptr, current.ptr, sb.marketPrice);
    var qty := Min(maxQty, Min(inbound.openQty, current.openQty));
    if price == MARKET_ORDER_PRICE || qty == 0 then
      Trade(inbound, current, sb, 0, [])
    else
      var i := inbound.(openQty := inbound.openQty - qty);
      var c := current.(openQty := current.openQty - qty);
      Trade(i, c, SetMarketPrice(sb, price), qty,
            [FillCb(inbound.ptr, current.ptr, qty, price, i.openQty == 0, c.openQty == 0)])
  }

  // ---- Matching an inbound order against one side ----

  /** Result of a match: what is left of the inbound order, the side it was matched
      against, the stop book, the AON orders it had to pass over, the fills, and
      whether the source reports a match. */
  datatype Match = Match(inbound: Tracker, side: seq<Entry>, stops: StopBook, deferred: seq<OrderId>,
                         fills: seq<Callback>, matched: bool) {
    function Passing(id: OrderId): Match {
      this.(deferred := [id] + deferred)
    }

    function After(fills': seq<Callback>, matched': bool): Match {
      this.(fills := fills' + fills, matched := matched' || matched)
    }
  }

  /** The nodes passed once the order of `e` is down to `t`. */
  function Past(done: seq<Entry>, e: Entry, t: Tracker): seq<Entry> {
    if t.openQty == 0 then done else done + [e.(tracker := t)]
  }

  /** `done` holds the nodes already passed, `rest` those still to visit. */
  function MatchRegular(env: OrderMap, inbound: Tracker, price: nat, done: seq<Entry>, rest: seq<Entry>,
                        sb: StopBook): (r: Match)
    ensures r.stops.Load() == sb.Load()
    ensures sb.marketPrice != 0 ==> r.stops.marketPrice != 0
    decreases |rest|
  {
    if rest == [] || inbound.openQty == 0 || !rest[0].key.Matches(price) then
      Match(inbound, done + rest, sb, [], [], false)
    else
      var e, tail := rest[0], rest[1..];
      if e.tracker.aon && inbound.openQty < e.tracker.openQty then
        // not enough to satisfy the resting AON order
        MatchRegular(env, inbound, price, done + [e], tail, sb).Passing(e.tracker.ptr)
      else
        var t := CreateTrade(env, inbound, e.tracker, inbound.openQty, sb);
        MatchRegular(env, t.inbound, price, Past(done, e, t.current), tail, t.stops).After(t.fills, t.qty > 0)
  }

  /** What a deferred order may contribute when `left` more is wanted: an AON order gives
      all or nothing. */
  function Share(t: Tracker, left: nat): (q: nat)
    ensures q <= left
  {
    if t.openQty <= left then t.openQty else if t.aon then 0 else left
  }

  /** First pass over the deferred orders: the quantity they can give without exceeding `left`. */
  function PlanQty(ids: seq<OrderId>, side: seq<Entry>, left: nat): (found: nat)
    ensures found <= left
  {
    if ids == [] || left == 0 then 0
    else
      var k := IndexOf(side, ids[0]);
      var q := if k < |side| then Share(side[k].tracker, left) else 0;
      q + PlanQty(ids[1..], side, left - q)
  }

  datatype Deferred = Deferred(inbound: Tracker, side: seq<Entry>, stops: StopBook, traded: nat, fills: seq<Callback>)

  /** Second pass: the planned trades are done and orders left empty are erased. */
  function ExecPlan(env: OrderMap, inbound: Tracker, ids: seq<OrderId>, side: seq<Entry>, left: nat,
                    sb: StopBook): (r: Deferred)
    ensures r.stops.Load() == sb.Load()
    ensures |r.side| <= |side|
    ensures sb.marketPrice != 0 ==> r.stops.marketPrice != 0
    decreases ids
  {
    if ids == [] || left == 0 then Deferred(inbound, side, sb, 0, [])
    else
      var k := IndexOf(side, ids[0]);
      if k == |side| then ExecPlan(env, inbound, ids[1..], side, left, sb)
      else
        var q := Share(side[k].tracker, left);
        var t := CreateTrade(env, inbound, side[k].tracker, q, sb);
        var r := ExecPlan(env, t.inbound, ids[1..], Settle(side, k, t.current), left - q, t.stops);
        r.(traded := t.qty + r.traded, fills := t.fills + r.fills)
  }

  function TryDeferred(env: OrderMap, inbound: Tracker, ids: seq<OrderId>, maxQty: nat, minQty: nat, side: seq<Entry>,
                       sb: StopBook): (r: Deferred)
    ensures r.stops.Load() == sb.Load()
    ensures |r.side| <= |side|
    ensures sb.marketPrice != 0 ==> r.stops.marketPrice != 0
  {
    if PlanQty(ids, side, maxQty) >= minQty
    then ExecPlan(env, inbound, ids, side, maxQty, sb)
    else Deferred(inbound, side, sb, 0, [])
  }

  /** `qty` is the source's own copy of the inbound quantity; `held` and `heldQty` are the
      matching orders passed so far that could not satisfy the inbound order on their own. */
  function MatchAon(env: OrderMap, inbound: Tracker, qty: nat, price: nat, done: seq<Entry>, rest: seq<Entry>,
                    held: seq<OrderId>, heldQty: nat, sb: StopBook): (r: Match)
    ensures r.stops.Load() == sb.Load()
    ensures sb.marketPrice != 0 ==> r.stops.marketPrice != 0
    decreases |rest|
  {
    if rest == [] || inbound.openQty == 0 || !rest[0].key.Matches(price) then
      Match(inbound, done + rest, sb, [], [], false)
    else
      var e, tail := rest[0], rest[1..];
      var cur := e.tracker.openQty;
      if e.tracker.aon && qty < cur then
        // the inbound order cannot satisfy the resting AON order
        MatchAon(env, inbound, qty, price, done + [e], tail, held, heldQty, sb).Passing(e.tracker.ptr)
      else if cur + heldQty < qty then
        // not enough yet: remember the resting order
        MatchAon(env, inbound, qty, price, done + [e], tail, held + [e.tracker.ptr], heldQty + cur, sb)
      else
        var d := TryDeferred(env, inbound, held, if e.tracker.aon then qty - cur else qty, if qty > cur then qty - cur
                             else 0, done, sb);
        if (if e.tracker.aon then d.traded != qty - cur else cur + d.traded < qty) then
          MatchAon(env, d.inbound, qty, price, d.side + [e], tail, held, heldQty, d.stops).After(d.fills, false)
        else
          var t := CreateTrade(env, d.inbound, e.tracker, d.inbound.openQty, d.stops);
          var traded := d.traded + t.qty;
          var past := if e.tracker.aon && t.qty > 0 then d.side else Past(d.side, e, t.current);
          MatchAon(env, t.inbound, qty - Min(qty, traded), price, past, tail, held, heldQty, t.stops)
            .After(d.fills + t.fills, if e.tracker.aon then t.qty > 0 else traded > 0)
  }

  function MatchOrder(env: OrderMap, inbound: Tracker, price: nat, side: seq<Entry>, sb: StopBook): (r: Match)
    ensures r.stops.Load() == sb.Load()
    ensures sb.marketPrice != 0 ==> r.stops.marketPrice != 0
  {
    if inbound.aon then MatchAon(env, inbound, inbound.openQty, price, [], side, [], 0, sb)
    else MatchRegular(env, inbound, price, [], side, sb)
  }

  // ---- Re-checking deferred AON orders, and adding an order ----

  datatype Recheck = Recheck(aons: seq<Entry>, market: seq<Entry>, stops: StopBook, fills: seq<Callback>, matched: bool)

  /** Each deferred AON order is matched as an inbound order against the other side. */
  function CheckDeferred(env: OrderMap, ids: seq<OrderId>, aons: seq<Entry>, market: seq<Entry>,
                         sb: StopBook): (r: Recheck)
    ensures r.stops.Load() == sb.Load()
    ensures sb.marketPrice != 0 ==> r.stops.marketPrice != 0
    decreases ids
  {
    if ids == [] then Recheck(aons, market, sb, [], false)
    else
      var k := IndexOf(aons, ids[0]);
      if k == |aons| then CheckDeferred(env, ids[1..], aons, market, sb)
      else
        var m := MatchOrder(env, aons[k].tracker, aons[k].key.price, market, sb);
        var r := CheckDeferred(env, ids[1..], Settle(aons, k, m.inbound), m.side, m.stops);
        r.(fills := m.fills + r.fills, matched := m.matched || r.matched)
  }

  datatype Book = Book(bids: seq<Entry>, asks: seq<Entry>, stops: StopBook) {
    function Side(buy: bool): seq<Entry> {
      if buy then bids else asks
    }

    function WithSides(buy: bool, own: seq<Entry>, opposite: seq<Entry>, stops': StopBook): Book {
      if buy then Book(own, opposite, stops') else Book(opposite, own, stops')
    }
  }

  /** `inbound` is the caller's tracker afterwards: the one that went into the book does
      not change it again. `dropped` is an immediate-or-cancel remainder. */
  datatype Added = Added(book: Book, inbound: Tracker, fills: seq<Callback>, matched: bool, dropped: seq<Tracker>)

  function AddOrder(env: OrderMap, b: Book, inbound: Tracker, price: nat): (r: Added)
    ensures r.book.stops.Load() == b.stops.Load()
    ensures b.stops.marketPrice != 0 ==> r.book.stops.marketPrice != 0
  {
    var buy := IsBuy(env, inbound.ptr);
    var m := MatchOrder(env, inbound, price, b.Side(!buy), b.stops);
    if m.inbound.openQty == 0 || m.inbound.ioc then
      Added(b.WithSides(buy, b.Side(buy), m.side, m.stops), m.inbound, m.fills, m.matched,
            if m.inbound.openQty == 0 then [] else [m.inbound])
    else
      var own := Insert(b.Side(buy), Entry(ComparablePrice(buy, price), m.inbound));
      var c := CheckDeferred(env, m.deferred, m.side, own, m.stops);
      Added(b.WithSides(buy, c.market, c.aons, c.stops), m.inbound, m.fills + c.fills, m.matched || c.matched, [])
  }

  // ---- Submitting released stop orders ----

  datatype Submitted = Submitted(book: Book, fills: seq<Callback>, dropped: seq<Tracker>)

  function SubmitAll(env: OrderMap, b: Book, waiting: seq<Tracker>): (r: Submitted)
    ensures r.book.stops.Load() == b.stops.Load()
    ensures b.stops.marketPrice != 0 ==> r.book.stops.marketPrice != 0
    decreases waiting
  {
    if waiting == [] then Submitted(b, [], [])
    else
      var a := AddOrder(env, b, waiting[0], PriceOf(env, waiting[0].ptr));
      var r := SubmitAll(env, a.book, waiting[1..]);
      Submitted(r.book, a.fills + r.fills, a.dropped + r.dropped)
  }

  /** Rounds of submission until no order is pending. */
  function SubmitPending(env: OrderMap, b: Book): (r: Submitted)
    ensures r.book.stops.pending == []
    ensures b.stops.marketPrice != 0 ==> r.book.stops.marketPrice != 0
    decreases b.stops.Load()
  {
    if b.stops.pending == [] then Submitted(b, [], [])
    else
      var s := SubmitAll(env, b.(stops := b.stops.(pending := [])), b.stops.pending);
      var r := SubmitPending(env, s.book);
      Submitted(r.book, s.fills + r.fills, s.dropped + r.dropped)
  }
}
