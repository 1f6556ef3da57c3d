/** What the engine part of a request does: an optional submission followed by the cascade,
    as one step with its fills and dropped remainders. */
module EngineSteps {
  import opened Orders
  import opened Books
  import opened Matching
  import opened Accounting
  import opened BookRuns
  import opened Cascade
  import opened Uncrossed
  import opened Trades

  /** From a book and the order that comes in (if any) to a book, fills and remainders. */
  ghost predicate EngineStep(v: View, b: Book, coming: seq<Tracker>, b': Book, fills: seq<Callback>,
                             dropped: seq<Tracker>) {
    && BookOk(v, b')
    && GoodTrades(v, fills)
    && (forall id ::
          BookSum(OpenOf(id), b') + Sum(OpenOf(id), dropped) + FillsOf(fills, id)
          == BookSum(OpenOf(id), b) + Sum(OpenOf(id), coming))
    && (forall w :: Falling(w) ==> BookSum(w, b') + Sum(w, dropped) <= BookSum(w, b) + Sum(w, coming))
  }

  lemma CascadeStep(v: View, b: Book)
    requires QueueOk(v, b, [])
    ensures var r := SubmitPending(v.env, b); EngineStep(v, b, [], r.book, r.fills, r.dropped)
  {
    var r := SubmitPending(v.env, b);
    SubmitPendingIsGood(v, b);
    forall id
      ensures BookSum(OpenOf(id), r.book) + Sum(OpenOf(id), r.dropped) + FillsOf(r.fills, id)
              == BookSum(OpenOf(id), b) + Sum(OpenOf(id), [])
    {
      SubmitPendingKeeps(v, b, id, LiveOf(id));
    }
    forall w: Weight | Falling(w)
      ensures BookSum(w, r.book) + Sum(w, r.dropped) <= BookSum(w, b) + Sum(w, [])
    {
      SubmitPendingKeeps(v, b, 0, w);
    }
    SubmitPendingKeeps(v, b, 0, LiveOf(0));
  }

  /** An order that may be submitted, and is nowhere else. */
  ghost predicate Coming(v: View, b: Book, t: Tracker) {
    && Submittable(v, b, t) && SidesAgree(v)
    && forall id :: BookSum(LiveOf(id), b) + Sum(LiveOf(id), [t]) <= 1
  }

  lemma AddedIsQueue(v: View, b: Book, t: Tracker)
    requires Coming(v, b, t)
    ensures QueueOk(v, AddOrder(v.env, b, t, PriceOf(v.denv, t.ptr)).book, [])
  {
    var a := AddOrder(v.env, b, t, PriceOf(v.denv, t.ptr));
    forall id
      ensures BookSum(LiveOf(id), a.book) + Sum(LiveOf(id), []) <= 1
    {
      AddOrderKeeps(v, b, t, id, LiveOf(id));
      SumOne(LiveOf(id), t);
      assert BookSum(LiveOf(id), b) + Sum(LiveOf(id), [t]) <= 1;
    }
    AddOrderKeeps(v, b, t, 0, LiveOf(0));
  }

  lemma StepCompose(v: View, b: Book, t: Tracker, a: Added, b': Book, fills: seq<Callback>, dropped: seq<Tracker>)
    requires EngineStep(v, a.book, [], b', fills, dropped) && GoodTrades(v, a.fills)
    requires forall id, w :: Falling(w) ==> AddKeeps(v, b, t, id, w, a)
    ensures EngineStep(v, b, [t], b', a.fills + fills, a.dropped + dropped)
  {
    forall id: OrderId
      ensures BookSum(OpenOf(id), b') + Sum(OpenOf(id), a.dropped + dropped) + FillsOf(a.fills + fills, id)
              == BookSum(OpenOf(id), b) + Sum(OpenOf(id), [t])
    {
      assert Falling(LiveOf(id)) && AddKeeps(v, b, t, id, LiveOf(id), a);
      FillsOfAppend(a.fills, fills, id);
      SumAppend(OpenOf(id), a.dropped, dropped);
      SumOne(OpenOf(id), t);
    }
    forall w: Weight | Falling(w)
      ensures BookSum(w, b') + Sum(w, a.dropped + dropped) <= BookSum(w, b) + Sum(w, [t])
    {
      assert AddKeeps(v, b, t, 0, w, a);
      SumAppend(w, a.dropped, dropped);
      SumOne(w, t);
    }
  }

  /** A submission and the cascade after it. */
  lemma SubmissionStep(v: View, b: Book, t: Tracker)
    requires Coming(v, b, t)
    ensures var a := AddOrder(v.env, b, t, PriceOf(v.denv, t.ptr));
            var r := SubmitPending(v.env, a.book);
            EngineStep(v, b, [t], r.book, a.fills + r.fills, a.dropped + r.dropped)
  {
    var a := AddOrder(v.env, b, t, PriceOf(v.denv, t.ptr));
    var r := SubmitPending(v.env, a.book);
    AddedIsQueue(v, b, t);
    CascadeStep(v, a.book);
    AddOrderIsGood(v, b, t);
    forall id: OrderId, w: Weight | Falling(w)
      ensures AddKeeps(v, b, t, id, w, a)
    {
      AddOrderKeeps(v, b, t, id, w);
    }
    StepCompose(v, b, t, a, r.book, r.fills, r.dropped);
  }

  lemma SubmissionUncrossed(v: View, b: Book, t: Tracker)
    requires Coming(v, b, t) && BookUncrossed(b)
    requires FindsPrice(v, t, b.Side(!IsBuy(v.denv, t.ptr)), HasPrice(b.stops))
    ensures BookUncrossed(SubmitPending(v.env, AddOrder(v.env, b, t, PriceOf(v.denv, t.ptr)).book).book)
  {
    AddOrderKeepsUncrossed(v, b, t);
    AddedIsQueue(v, b, t);
    SubmitPendingKeepsUncrossed(v, AddOrder(v.env, b, t, PriceOf(v.denv, t.ptr)).book);
  }
}
