/** Released stop orders: which ones a new price releases, how the cascade of submissions
    ends, and what it keeps. */
module Cascade {
  import opened Prices
  import opened Orders
  import opened Books
  import opened Matching
  import opened Accounting
  import opened BookRuns

  // ---- Which stop orders a price releases ----

  /** The release takes exactly the stop orders not ordered after the new price, and the
      ones it keeps stay in their order. */
  lemma {:induction false} ReleaseIsPartition(until: ComparablePrice, stops: seq<Entry>, k: nat)
    requires Sorted(stops) && OneSided(stops, until.buySide) && k < |stops|
    ensures k < ReleaseCount(until, stops) <==> !until.Less(stops[k].key)
  {
    if until.Less(stops[0].key) {
      LessIsStrictTotalOrder(until, stops[0].key, stops[k].key);
    } else if k > 0 {
      ReleaseIsPartition(until, stops[1..], k - 1);
    }
  }

  /** Has the market come to this stop price: up to it for a buy, down to it for a sell? */
  predicate Reached(key: ComparablePrice, price: nat) {
    if key.buySide then key.price <= price else price <= key.price
  }

  /** A stop order is released as soon as, and not before, the market reaches its price
      only when every held stop order of that side sits at the new price itself. */
  lemma ReleasedIffReachedExactlyWhen(stops: seq<Entry>, buySide: bool, price: nat)
    requires Sorted(stops) && OneSided(stops, buySide) && price != MARKET_ORDER_PRICE
    requires forall k :: 0 <= k < |stops| ==> stops[k].key.price != MARKET_ORDER_PRICE
    ensures (forall k :: 0 <= k < |stops| ==>
             (k < ReleaseCount(ComparablePrice(buySide, price), stops) <==> Reached(stops[k].key, price)))
       <==> (forall k :: 0 <= k < |stops| ==> stops[k].key.price == price)
  {
    var until := ComparablePrice(buySide, price);
    forall k | 0 <= k < |stops|
      ensures (k < ReleaseCount(until, stops) <==> Reached(stops[k].key, price)) <==> stops[k].key.price == price
    {
      ReleaseIsPartition(until, stops, k);
    }
  }

  /** A buy stop at 110 is released when the market rises to 105 only. */
  lemma StopReleasedEarly()
    ensures var stops := [Entry(ComparablePrice(true, 110), Tracker(1, 10, false, false))];
            ReleaseCount(ComparablePrice(true, 105), stops) == 1 && !Reached(stops[0].key, 105)
  {
  }

  // ---- The cascade ----

  ghost predicate SidesAgree(v: View) {
    forall id :: IsBuy(v.env, id) == IsBuy(v.denv, id)
  }

  /** A book and orders waiting to be submitted to it, each order at one place only. */
  ghost predicate QueueOk(v: View, b: Book, waiting: seq<Tracker>) {
    && BookOk(v, b) && AllWait(v, waiting) && SidesAgree(v)
    && forall id :: BookSum(LiveOf(id), b) + Sum(LiveOf(id), waiting) <= 1
  }

  /** What submitting `waiting` may do to the totals of one order. */
  ghost predicate SubmitKeeps(v: View, b: Book, waiting: seq<Tracker>, id: OrderId, w: Weight, s: Submitted) {
    && BookOk(v, s.book)
    && BookSum(OpenOf(id), s.book) + Sum(OpenOf(id), s.dropped) + FillsOf(s.fills, id)
       == BookSum(OpenOf(id), b) + Sum(OpenOf(id), waiting)
    && BookSum(w, s.book) + Sum(w, s.dropped) <= BookSum(w, b) + Sum(w, waiting)
    && StopSum(w, s.book.stops) == StopSum(w, b.stops)
  }

  lemma HeadIsSubmittable(v: View, b: Book, waiting: seq<Tracker>)
    requires QueueOk(v, b, waiting) && waiting != []
    ensures Submittable(v, b, waiting[0]) && PriceOf(v.env, waiting[0].ptr) == PriceOf(v.denv, waiting[0].ptr)
  {
    var t := waiting[0];
    assert Waits(v, t);
    assert BookSum(LiveOf(t.ptr), b) + Sum(LiveOf(t.ptr), waiting) <= 1;
  }

  lemma SubmitOneKeeps(v: View, b: Book, waiting: seq<Tracker>)
    requires QueueOk(v, b, waiting) && waiting != []
    ensures QueueOk(v, AddOrder(v.env, b, waiting[0], PriceOf(v.env, waiting[0].ptr)).book, waiting[1..])
  {
    HeadIsSubmittable(v, b, waiting);
    var a := AddOrder(v.env, b, waiting[0], PriceOf(v.denv, waiting[0].ptr));
    assert AllWait(v, waiting[1..]);
    forall id
      ensures BookSum(LiveOf(id), a.book) + Sum(LiveOf(id), waiting[1..]) <= 1
    {
      AddOrderKeeps(v, b, waiting[0], id, LiveOf(id));
      assert BookSum(LiveOf(id), b) + Sum(LiveOf(id), waiting) <= 1;
    }
    AddOrderKeeps(v, b, waiting[0], 0, LiveOf(0));
  }

  lemma SubmitCombine(v: View, b: Book, waiting: seq<Tracker>, a: Added, s: Submitted, id: OrderId, w: Weight)
    requires waiting != [] && AddKeeps(v, b, waiting[0], id, w, a) && SubmitKeeps(v, a.book, waiting[1..], id, w, s)
    ensures SubmitKeeps(v, b, waiting, id, w, Submitted(s.book, a.fills + s.fills, a.dropped + s.dropped))
  {
    SumAppend(OpenOf(id), a.dropped, s.dropped);
    SumAppend(w, a.dropped, s.dropped);
    FillsOfAppend(a.fills, s.fills, id);
  }

  lemma {:induction false} SubmitAllKeeps(v: View, b: Book, waiting: seq<Tracker>, id: OrderId, w: Weight)
    requires QueueOk(v, b, waiting) && Falling(w)
    ensures SubmitKeeps(v, b, waiting, id, w, SubmitAll(v.env, b, waiting))
    decreases |waiting|
  {
    if waiting != [] {
      HeadIsSubmittable(v, b, waiting);
      AddOrderKeeps(v, b, waiting[0], id, w);
      SubmitOneKeeps(v, b, waiting);
      var a := AddOrder(v.env, b, waiting[0], PriceOf(v.env, waiting[0].ptr));
      SubmitAllKeeps(v, a.book, waiting[1..], id, w);
      SubmitCombine(v, b, waiting, a, SubmitAll(v.env, a.book, waiting[1..]), id, w);
    }
  }

  function Emptied(b: Book): Book {
    b.(stops := b.stops.(pending := []))
  }

  lemma EmptiedIsQueue(v: View, b: Book)
    requires QueueOk(v, b, [])
    ensures QueueOk(v, Emptied(b), b.stops.pending)
    ensures forall w :: BookSum(w, b) == BookSum(w, Emptied(b)) + Sum(w, b.stops.pending)
    ensures forall w :: StopSum(w, b.stops) == StopSum(w, Emptied(b).stops) + Sum(w, b.stops.pending)
  {
    forall id
      ensures BookSum(LiveOf(id), Emptied(b)) + Sum(LiveOf(id), b.stops.pending) <= 1
    {
      assert BookSum(LiveOf(id), b) + Sum(LiveOf(id), []) <= 1;
    }
  }

  lemma SubmittedIsQueue(v: View, b: Book)
    requires QueueOk(v, b, [])
    ensures QueueOk(v, SubmitAll(v.env, Emptied(b), b.stops.pending).book, [])
  {
    EmptiedIsQueue(v, b);
    var s := SubmitAll(v.env, Emptied(b), b.stops.pending);
    forall id
      ensures BookSum(LiveOf(id), s.book) + Sum(LiveOf(id), []) <= 1
    {
      SubmitAllKeeps(v, Emptied(b), b.stops.pending, id, LiveOf(id));
      assert BookSum(LiveOf(id), Emptied(b)) + Sum(LiveOf(id), b.stops.pending) <= 1;
    }
    SubmitAllKeeps(v, Emptied(b), b.stops.pending, 0, LiveOf(0));
  }

  /** Every round of the cascade leaves fewer orders held back than it started with. */
  lemma RoundShrinksLoad(env: OrderMap, b: Book)
    requires b.stops.pending != []
    ensures SubmitAll(env, Emptied(b), b.stops.pending).book.stops.Load() < b.stops.Load()
  {
  }

  /** The orders the cascade submits, in the order it submits them. */
  function Sent(env: OrderMap, b: Book): seq<Tracker>
    decreases b.stops.Load()
  {
    if b.stops.pending == [] then []
    else b.stops.pending + Sent(env, SubmitAll(env, Emptied(b), b.stops.pending).book)
  }

  /** The whole cascade: totals are kept, nothing stays pending, and every order held
      before is afterwards still held or was submitted, once. */
  lemma {:induction false} SubmitPendingKeeps(v: View, b: Book, id: OrderId, w: Weight)
    requires QueueOk(v, b, []) && Falling(w)
    ensures var r := SubmitPending(v.env, b);
            && BookOk(v, r.book)
            && BookSum(OpenOf(id), r.book) + Sum(OpenOf(id), r.dropped) + FillsOf(r.fills, id) == BookSum(OpenOf(id), b)
            && BookSum(w, r.book) + Sum(w, r.dropped) <= BookSum(w, b)
            && StopSum(w, r.book.stops) + Sum(w, Sent(v.env, b)) == StopSum(w, b.stops)
    decreases b.stops.Load()
  {
    if b.stops.pending != [] {
      EmptiedIsQueue(v, b);
      SubmitAllKeeps(v, Emptied(b), b.stops.pending, id, w);
      SubmittedIsQueue(v, b);
      var s := SubmitAll(v.env, Emptied(b), b.stops.pending);
      SubmitPendingKeeps(v, s.book, id, w);
      var r := SubmitPending(v.env, s.book);
      SumAppend(OpenOf(id), s.dropped, r.dropped);
      SumAppend(w, s.dropped, r.dropped);
      SumAppend(w, b.stops.pending, Sent(v.env, s.book));
      FillsOfAppend(s.fills, r.fills, id);
    }
  }

  // ---- What is dropped ----

  /** Only what is left of immediate-or-cancel orders is dropped. */
  predicate IocRemainders(ts: seq<Tracker>) {
    forall k :: 0 <= k < |ts| ==> ts[k].ioc && ts[k].openQty > 0
  }

  lemma IocParts(a: seq<Tracker>, b: seq<Tracker>)
    requires IocRemainders(a) && IocRemainders(b)
    ensures IocRemainders(a + b)
  {
  }

  lemma AddedDropsIoc(env: OrderMap, b: Book, t: Tracker, price: nat)
    ensures IocRemainders(AddOrder(env, b, t, price).dropped)
  {
    hide Matching.MatchOrder, Matching.CheckDeferred, Insert;
  }

  lemma {:induction false} SubmitAllDropsIoc(env: OrderMap, b: Book, waiting: seq<Tracker>)
    ensures IocRemainders(SubmitAll(env, b, waiting).dropped)
    decreases |waiting|
  {
    hide AddOrder;
    if waiting != [] {
      var price := PriceOf(env, waiting[0].ptr);
      AddedDropsIoc(env, b, waiting[0], price);
      SubmitAllDropsIoc(env, AddOrder(env, b, waiting[0], price).book, waiting[1..]);
    }
  }

  lemma {:induction false} SubmitPendingDropsIoc(env: OrderMap, b: Book)
    ensures IocRemainders(SubmitPending(env, b).dropped)
    decreases b.stops.Load()
  {
    hide SubmitAll;
    if b.stops.pending != [] {
      SubmitAllDropsIoc(env, Emptied(b), b.stops.pending);
      SubmitPendingDropsIoc(env, SubmitAll(env, Emptied(b), b.stops.pending).book);
    }
  }
}
