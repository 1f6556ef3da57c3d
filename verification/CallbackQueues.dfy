/** The callback queue under reentrancy: a listener may issue requests from inside a callback
    (src/book/order_book.h, `callback_now`). */
module CallbackQueues {
  import opened Orders

  /** The two vectors of callbacks and the guard against recursion; `next` is how far the
      working vector has been delivered. The last two fields only record what happened. */
  datatype Queue = Queue(callbacks: seq<Callback>, working: seq<Callback>, next: nat, handling: bool,
                         enqueued: seq<Callback>, delivered: seq<Callback>)

  datatype Step =
    | Request(cbs: seq<Callback>)   // a request enqueues its callbacks, then asks for delivery
    | Perform                       // the next callback of the working vector is performed
    | Turn                          // the working vector is done: swap, or stop when nothing came in

  predicate Enabled(q: Queue, s: Step) {
    match s
    case Request(_) => true
    case Perform => q.handling && q.next < |q.working|
    case Turn => q.handling && q.next == |q.working|
  }

  function Next(q: Queue, s: Step): Queue
    requires Enabled(q, s)
  {
    match s
    case Request(cbs) =>
      // a nested request finds the guard set and leaves its callbacks for the running delivery
      q.(callbacks := q.callbacks + cbs, enqueued := q.enqueued + cbs, handling := true)
    case Perform => q.(next := q.next + 1, delivered := q.delivered + [q.working[q.next]])
    case Turn =>
      if q.callbacks != [] then q.(callbacks := [], working := q.callbacks, next := 0)
      else q.(working := [], next := 0, handling := false)
  }

  ghost predicate Ok(q: Queue) {
    && q.next <= |q.working|
    && q.delivered + q.working[q.next..] + q.callbacks == q.enqueued
    && (!q.handling ==> q.working == [] && q.callbacks == [])
  }

  ghost predicate Runs(q: Queue, ss: seq<Step>, q': Queue)
    decreases |ss|
  {
    if ss == [] then q == q' else Enabled(q, ss[0]) && Runs(Next(q, ss[0]), ss[1..], q')
  }

  lemma StepKeepsOk(q: Queue, s: Step)
    requires Ok(q) && Enabled(q, s)
    ensures Ok(Next(q, s))
  {
    var q' := Next(q, s);
    match s
    case Request(cbs) =>
      assert q.delivered + q.working[q.next..] + (q.callbacks + cbs)
             == q.delivered + q.working[q.next..] + q.callbacks + cbs;
    case Perform =>
      assert q.working[q.next..] == [q.working[q.next]] + q.working[q.next + 1..];
      assert q.delivered + [q.working[q.next]] + q.working[q.next + 1..] == q.delivered + q.working[q.next..];
    case Turn =>
      assert q.working[q.next..] == [];
      assert q'.working[q'.next..] == q.callbacks;
      assert q.delivered + [] + q.callbacks == q.delivered + q.callbacks + [];
  }

  /** However requests and deliveries interleave, what has been delivered is what was
      enqueued, in that order, each callback once; and when delivery stops nothing is left. */
  lemma {:induction false} DeliveredInOrder(q: Queue, ss: seq<Step>, q': Queue)
    requires Ok(q) && Runs(q, ss, q')
    ensures Ok(q') && q'.delivered <= q'.enqueued
    ensures !q'.handling ==> q'.delivered == q'.enqueued
    decreases |ss|
  {
    if ss == [] {
      assert q'.delivered + (q'.working[q'.next..] + q'.callbacks) == q'.enqueued;
      if !q'.handling {
        assert q'.working[q'.next..] == [];
      }
    } else {
      StepKeepsOk(q, ss[0]);
      DeliveredInOrder(Next(q, ss[0]), ss[1..], q');
    }
  }

  /** The steps still to be made when no listener asks for more. */
  function Remaining(q: Queue): int {
    if !q.handling then 0
    else (|q.working| - q.next) + (if q.callbacks == [] then 1 else |q.callbacks| + 2)
  }

  /** A delivery that is going on can always go on, and gets nearer to its end with every
      step in which nobody makes a request. */
  lemma DeliveryProgresses(q: Queue)
    requires Ok(q) && q.handling
    ensures Enabled(q, Perform) || Enabled(q, Turn)
    ensures Enabled(q, Perform) ==> Remaining(Next(q, Perform)) < Remaining(q)
    ensures Enabled(q, Turn) ==> Remaining(Next(q, Turn)) < Remaining(q)
    ensures Remaining(q) > 0
  {
  }

  /** Only ending a delivery clears the guard, and it does so with nothing left to deliver. */
  lemma GuardClearsWhenEmpty(q: Queue, s: Step)
    requires Ok(q) && Enabled(q, s) && q.handling && !Next(q, s).handling
    ensures s.Turn? && q.delivered == q.enqueued
  {
    assert q.working[q.next..] == [];
    assert q.delivered + [] + [] == q.delivered;
  }
}
