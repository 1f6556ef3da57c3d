/** In every reachable state no resting all-or-none order could be filled by the regular orders on
    the other side. */
module WaitResults {
  import opened Prices
  import opened Orders
  import opened Books
  import opened Matching
  import opened Accounting
  import opened BookRuns
  import opened Cascade
  import opened Priority
  import opened Requests
  import opened DepthSpec
  import opened EngineSteps
  import opened System
  import opened RequestRuns
  import opened RequestInvariants
  import opened Results
  import opened WaitingAons

  lemma AddKeepsWaiting(s: Sys, id: OrderId, order: Order, t: Tracker)
    requires Fresh(s, id, order, t) && AonsWait(s.book)
    ensures AonsWait(Add(s.orders[id := order], s.book, id, t.aon, t.ioc).book)
  {
    hide Fresh, Inv, Seen, AonsWait, QueueOk, Coming, Placed, BookOk, Requests.Held, Matching.AddOrder,
         Matching.SubmitPending, HoldStop;
    var orders := s.orders[id := order];
    var v := Seen(orders, s.book, [t]);
    FreshView(s, id, order, t);
    if Requests.Held(orders, id, s.book.stops.marketPrice) {
      var b := HoldStop(orders, s.book, t);
      HeldStopInBook(s, id, order, t, b);
      PlacedIsQueue(v, s.orders[id := order.Accept()], b, s.retired);
      HeldKeepsWaiting(orders, s.book, t);
      SubmitPendingKeepsWaiting(v, b);
    } else {
      NewOrderComing(s, id, order, t);
      SubmissionWaits(v, s.book, t);
    }
  }

  lemma HeldKeepsWaiting(orders: OrderMap, b: Book, t: Tracker)
    requires t.ptr in orders && AonsWait(b)
    ensures AonsWait(HoldStop(orders, b, t))
  {
  }

  lemma WithoutKeepsWaiting(b: Book, buy: bool, k: nat)
    requires k < |b.Side(buy)| && AonsWait(b)
    ensures AonsWait(Without(b, buy, k))
  {
    hide AllWaitFor, NoMoreRegular, Erase;
    var own, opposite := b.Side(buy), b.Side(!buy);
    WaitsBySides(b, buy);
    ErasedWaits(own, k, opposite);
    ErasedGivesLess(own, k, opposite);
    WaitsBySides(Without(b, buy, k), buy);
  }

  lemma ErasedWaits(own: seq<Entry>, k: nat, opposite: seq<Entry>)
    requires k < |own| && AllWaitFor(own, opposite)
    ensures AllWaitFor(Erase(own, k), opposite)
  {
    var s := Erase(own, k);
    assert forall i :: 0 <= i < |s| ==> s[i] == own[if i < k then i else i + 1];
  }

  lemma ErasedGivesLess(own: seq<Entry>, k: nat, opposite: seq<Entry>)
    requires k < |own| && AllWaitFor(opposite, own)
    ensures AllWaitFor(opposite, Erase(own, k))
  {
    forall j | 0 <= j < |opposite|
      ensures !CouldFill(opposite[j], Erase(own, k))
    {
      RegularErase(own, k, opposite[j].key.price);
      assert !CouldFill(opposite[j], own);
    }
  }

  lemma ReplaceTakenKeepsWaiting(s: Sys, buy: bool, k: nat, t: Tracker, b: Book, d: int, price: nat, orders: OrderMap,
                                 v: View)
    requires Replaced(s, buy, k, t, b, d, price, orders, v) && AonsWait(b)
    ensures AonsWait(ReplaceTaken(s.orders, b, t, d, price).book)
  {
    hide AonsWait, Inv, TakenOut, Coming, QueueOk, Matching.AddOrder, Matching.SubmitPending, BookOk, Placed;
    if t.openQty + d == 0 {
      EmptiedPlaced(s, buy, k, t, b, d, price, orders, v);
      ReplacedViews(s, buy, k, t, b, d, price, orders, v);
      PlacedIsQueue(v, orders, b, s.retired);
      SubmitPendingKeepsWaiting(v, b);
    } else {
      ResubmittedComing(s, buy, k, t, b, d, price, orders, v);
      SubmissionWaits(v, b, t.(openQty := t.openQty + d));
    }
  }

  lemma ReplaceKeepsWaiting(s: Sys, id: OrderId, delta: int, newPrice: nat)
    requires Inv(s) && AonsWait(s.book)
    ensures AonsWait(Replace(s.orders, s.book, id, delta, newPrice).book)
  {
    hide AonsWait, Inv, ReplaceTaken, Placed, Recorded, BookOk;
    var buy := IsBuy(s.orders, id);
    var k := FindOnMarket(s.orders, s.book, id);
    if k < |s.book.Side(buy)| {
      var t := s.book.Side(buy)[k].tracker;
      FindsExactlyResting(s, id, k);
      var b, d := Without(s.book, buy, k), ClipDelta(delta, t.openQty);
      var price := if newPrice == 0 then PriceOf(s.orders, id) else newPrice;
      var orders := ApplyCallback(s.orders, ReplaceCb(t.ptr, t.openQty, d, price));
      WithoutKeepsWaiting(s.book, buy, k);
      ReplaceTakenKeepsWaiting(s, buy, k, t, b, d, price, orders, Seen(s.orders, s.book).(denv := orders));
    }
  }

  /** Every proper request leaves every resting all-or-none order with too little to fill it. */
  lemma HandleKeepsWaiting(s: Sys, r: Request)
    requires Inv(s) && Proper(s, r) && AonsWait(s.book)
    ensures AonsWait(Handle(s, r).book)
  {
    hide AllWaitFor, Inv;
    match r
    case AddReq(id, order, aon, ioc) =>
      if order.qty > 0 {
        IsFresh(s, id, order, aon, ioc);
        AddKeepsWaiting(s, id, order, Tracker(id, order.qty, aon, ioc));
      }
    case CancelReq(id) =>
      var k := FindOnMarket(s.orders, s.book, id);
      if k < |s.book.Side(IsBuy(s.orders, id))| {
        WithoutKeepsWaiting(s.book, IsBuy(s.orders, id), k);
      }
    case ReplaceReq(id, delta, newPrice) => ReplaceKeepsWaiting(s, id, delta, newPrice);
    case MarketPriceReq(price) =>
  }

  lemma {:induction false} RunKeepsWaiting(s: Sys, rs: seq<Request>, s': Sys)
    requires Inv(s) && Reaches(s, rs, s') && AonsWait(s.book)
    ensures AonsWait(s'.book)
    decreases |rs|
  {
    hide Inv, AonsWait, Handle, Proper;
    if rs != [] {
      HandleKeepsInv(s, rs[0]);
      HandleKeepsWaiting(s, rs[0]);
      RunKeepsWaiting(Handle(s, rs[0]), rs[1..], s');
    }
  }

  /** In every reachable state: a resting all-or-none order that faces regular orders only crosses
      less than it is open for. */
  lemma RestingAonNotFillable(rs: seq<Request>, s: Sys, buy: bool, k: nat)
    requires Reaches(START, rs, s) && k < |s.book.Side(buy)| && s.book.Side(buy)[k].tracker.aon
    ensures var e := s.book.Side(buy)[k];
            && RegularQty(s.book.Side(!buy), e.key.price) < e.tracker.openQty
            && (AllRegular(s.book.Side(!buy)) ==> CrossingQty(s.book.Side(!buy), e.key.price) < e.tracker.openQty)
  {
    StartHasInv();
    RunKeepsWaiting(START, rs, s);
    var e := s.book.Side(buy)[k];
    assert !CouldFill(e, s.book.Side(!buy));
    if AllRegular(s.book.Side(!buy)) {
      RegularIsCrossing(s.book.Side(!buy), e.key.price);
    }
  }
}
