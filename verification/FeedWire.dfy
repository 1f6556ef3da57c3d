/** The depth feed as a protocol: what one session sends, what its subscriber makes of it, and
    why the subscriber's levels are the publisher's
    (examples/depth_feed_publisher/depth_feed_publisher.cpp, depth_feed_connection.cpp,
    depth_feed_subscriber.cpp). */
module FeedWire {
  import opened Options
  import opened DepthLevels

  type Symbol = string

  /** The visible levels of both sides. */
  datatype Screen = Screen(bids: seq<Datum>, asks: seq<Datum>)

  datatype LevelUpdate = LevelUpdate(levelNum: nat, datum: Datum)

  datatype Message =
    | DepthMsg(seqNum: nat, symbol: Symbol, bids: seq<LevelUpdate>, asks: seq<LevelUpdate>)
    | TradeMsg(seqNum: nat, symbol: Symbol, qty: nat, cost: nat)

  /** A message with its sequence number set. */
  function Numbered(m: Message, n: nat): Message {
    match m
    case DepthMsg(_, symbol, bids, asks) => DepthMsg(n, symbol, bids, asks)
    case TradeMsg(_, symbol, qty, cost) => TradeMsg(n, symbol, qty, cost)
  }

  // ---- Messages ----

  /** The levels a message carries: all of them, or those stamped after the last publication. */
  function Updates(slots: seq<DepthLevel>, published: nat, full: bool, index: nat): seq<LevelUpdate>
    requires index <= |slots|
    decreases |slots| - index
  {
    if index == |slots| then []
    else if full || slots[index].ChangedSince(published)
      then [LevelUpdate(index, slots[index].Data())] + Updates(slots, published, full, index + 1)
    else Updates(slots, published, full, index + 1)
  }

  predicate InRange(us: seq<LevelUpdate>, size: nat) {
    forall i :: 0 <= i < |us| ==> us[i].levelNum < size
  }

  /** The subscriber overwrites the levels a message names. */
  function Overwrite(levels: seq<Datum>, us: seq<LevelUpdate>): (r: seq<Datum>)
    requires InRange(us, |levels|)
    ensures |r| == |levels|
    decreases |us|
  {
    if us == [] then levels else Overwrite(levels[us[0].levelNum := us[0].datum], us[1..])
  }

  lemma {:induction false} UpdatesInRange(slots: seq<DepthLevel>, published: nat, full: bool, index: nat)
    requires index <= |slots|
    ensures InRange(Updates(slots, published, full, index), |slots|)
    decreases |slots| - index
  {
    if index < |slots| {
      UpdatesInRange(slots, published, full, index + 1);
    }
  }

  /** Levels that are right up to `index`, and right wherever no update follows, are right
      after the updates. */
  lemma {:induction false} UpdatesShow(levels: seq<Datum>, slots: seq<DepthLevel>, published: nat, full: bool,
                                       index: nat)
    requires |levels| == |slots| && index <= |slots|
    requires forall j {:trigger slots[j]} :: 0 <= j < |slots| ==>
      levels[j] == slots[j].Data() || (index <= j && (full || slots[j].ChangedSince(published)))
    ensures InRange(Updates(slots, published, full, index), |slots|)
    ensures Overwrite(levels, Updates(slots, published, full, index)) == Datas(slots)
    decreases |slots| - index
  {
    UpdatesInRange(slots, published, full, index);
    if index < |slots| {
      if full || slots[index].ChangedSince(published) {
        var levels' := levels[index := slots[index].Data()];
        UpdatesShow(levels', slots, published, full, index + 1);
        var us := Updates(slots, published, full, index);
        assert us[1..] == Updates(slots, published, full, index + 1);
      } else {
        UpdatesShow(levels, slots, published, full, index + 1);
      }
    } else {
      assert levels == Datas(slots);
    }
  }

  /** A full message shows the publisher's levels whatever was there before. */
  lemma FullShows(levels: seq<Datum>, slots: seq<DepthLevel>, published: nat)
    requires |levels| == |slots|
    ensures InRange(Updates(slots, published, true, 0), |slots|)
    ensures Overwrite(levels, Updates(slots, published, true, 0)) == Datas(slots)
  {
    UpdatesShow(levels, slots, published, true, 0);
  }

  /** An incremental message does so from what was last published: every slot that differs
      from it is stamped later. */
  lemma IncrementalShows(slots: seq<DepthLevel>, shown: seq<Datum>, published: nat, change: nat)
    requires StampedSide(slots, shown, published, change)
    ensures InRange(Updates(slots, published, false, 0), |slots|)
    ensures Overwrite(shown, Updates(slots, published, false, 0)) == Datas(slots)
  {
    UpdatesShow(shown, slots, published, false, 0);
  }

  // ---- One session and its subscriber ----

  /** A session: the messages sent on it so far, and beside each depth message what the
      publisher showed when it was sent. */
  datatype Wire = Wire(seqNum: nat, sentSymbols: set<Symbol>, sent: seq<Message>, asOf: seq<Screen>)

  datatype Receiver = Receiver(expectedSeq: nat, depthMap: map<Symbol, Screen>)

  function Blanks(size: nat): (s: seq<Datum>)
    ensures |s| == size
  {
    if size == 0 then [] else [BLANK.Data()] + Blanks(size - 1)
  }

  predicate Fits(s: Screen, size: nat) {
    |s.bids| == size && |s.asks| == size
  }

  predicate MessageFits(m: Message, size: nat) {
    m.DepthMsg? ==> InRange(m.bids, size) && InRange(m.asks, size)
  }

  function ScreenOf(r: Receiver, symbol: Symbol, size: nat): Screen {
    if symbol in r.depthMap then r.depthMap[symbol] else Screen(Blanks(size), Blanks(size))
  }

  function Overwritten(s: Screen, m: Message): Screen
    requires m.DepthMsg? && InRange(m.bids, |s.bids|) && InRange(m.asks, |s.asks|)
  {
    Screen(Overwrite(s.bids, m.bids), Overwrite(s.asks, m.asks))
  }

  /** What the subscriber does with a message: nothing unless it is the one it expects. */
  function Receive(r: Receiver, m: Message, size: nat): Receiver
    requires MessageFits(m, size) && Fits(ScreenOf(r, m.symbol, size), size)
  {
    if m.seqNum != r.expectedSeq then r
    else match m
      case DepthMsg(_, symbol, _, _) => Receiver(r.expectedSeq + 1,
                                                 r.depthMap[symbol := Overwritten(ScreenOf(r, symbol, size), m)])
      case TradeMsg(_, _, _, _) => r.(expectedSeq := r.expectedSeq + 1)
  }

  /** A new connection: numbering starts again, the levels of the old one stay. */
  function Reset(r: Receiver): Receiver {
    r.(expectedSeq := 1)
  }

  /** What the first `n` messages last said about a symbol. */
  function LastShown(w: Wire, n: nat, symbol: Symbol): Option<Screen>
    requires n <= |w.sent| && n <= |w.asOf|
  {
    if n == 0 then None
    else if w.sent[n - 1].DepthMsg? && w.sent[n - 1].symbol == symbol then Some(w.asOf[n - 1])
    else LastShown(w, n - 1, symbol)
  }

  /** A depth message turns what was last said into what was shown when it was sent; the
      first one about a symbol does so from anything. */
  ghost predicate Shows(w: Wire, k: nat, size: nat)
    requires k < |w.sent| && k < |w.asOf|
  {
    var m := w.sent[k];
    m.DepthMsg? ==>
      && MessageFits(m, size) && Fits(w.asOf[k], size)
      && var last := LastShown(w, k, m.symbol);
         forall s: Screen :: Fits(s, size) && (last.Some? ==> s == last.value) ==> Overwritten(s, m) == w.asOf[k]
  }

  /** The sending side: consecutive numbers, messages that show, and a record of the symbols
      that have been started, each last told what is shown now. */
  ghost predicate Sending(w: Wire, shown: map<Symbol, Screen>, size: nat) {
    && |w.sent| == |w.asOf| == w.seqNum
    && (forall k {:trigger w.sent[k]} :: 0 <= k < |w.sent| ==> w.sent[k].seqNum == k + 1 && Shows(w, k, size))
    && (forall symbol :: symbol in w.sentSymbols ==>
        symbol in shown && LastShown(w, |w.sent|, symbol) == Some(shown[symbol]))
    && (forall symbol :: symbol !in w.sentSymbols ==> LastShown(w, |w.sent|, symbol) == None)
  }

  /** The subscriber after the first `n` messages. */
  ghost predicate Following(w: Wire, r: Receiver, n: nat, size: nat) {
    && n <= |w.sent| && n <= |w.asOf| && r.expectedSeq == n + 1
    && (forall symbol :: symbol in r.depthMap ==> Fits(r.depthMap[symbol], size))
    && (forall symbol :: LastShown(w, n, symbol).Some? ==>
        symbol in r.depthMap && r.depthMap[symbol] == LastShown(w, n, symbol).value)
  }

  // ---- The steps keep it ----

  /** Sending one more message leaves what was said before alone. */
  lemma {:induction false} LastShownPrefix(w: Wire, m: Message, s: Screen, n: nat, symbol: Symbol)
    requires |w.sent| == |w.asOf| && n <= |w.sent|
    ensures LastShown(w.(sent := w.sent + [m], asOf := w.asOf + [s]), n, symbol) == LastShown(w, n, symbol)
  {
    if n > 0 {
      LastShownPrefix(w, m, s, n - 1, symbol);
    }
  }

  /** The session sends a message; `s` is what the publisher shows of its symbol. */
  function Send(w: Wire, m: Message, s: Screen): Wire {
    Wire(w.seqNum + 1, if m.DepthMsg? then w.sentSymbols + {m.symbol} else w.sentSymbols, w.sent + [m], w.asOf + [s])
  }

  lemma SendKeepsShows(w: Wire, shown: map<Symbol, Screen>, size: nat, m: Message, s: Screen, k: nat)
    requires Sending(w, shown, size) && k < |w.sent|
    ensures Send(w, m, s).sent[k] == w.sent[k] && Shows(Send(w, m, s), k, size)
  {
    var w' := Send(w, m, s);
    LastShownPrefix(w, m, s, k, w.sent[k].symbol);
    LastShownIgnores(w.(sent := w.sent + [m], asOf := w.asOf + [s]), w', k, w.sent[k].symbol);
    assert Shows(w, k, size);
  }

  lemma {:induction false} LastShownIgnores(w: Wire, w': Wire, n: nat, symbol: Symbol)
    requires w.sent == w'.sent && w.asOf == w'.asOf && n <= |w.sent| && n <= |w.asOf|
    ensures LastShown(w, n, symbol) == LastShown(w', n, symbol)
  {
    if n > 0 {
      LastShownIgnores(w, w', n - 1, symbol);
    }
  }

  /** A depth message that shows the new levels, to a session that may know the old ones. */
  lemma DepthSendKeeps(w: Wire, shown: map<Symbol, Screen>, size: nat, m: Message, s: Screen)
    requires Sending(w, shown, size) && m.DepthMsg? && m.seqNum == w.seqNum + 1 && MessageFits(m, size) && Fits(s, size)
    requires forall t: Screen :: Fits(t, size) && (m.symbol in w.sentSymbols ==> t == shown[m.symbol]) ==>
             Overwritten(t, m) == s
    ensures Sending(Send(w, m, s), shown[m.symbol := s], size)
  {
    var w' := Send(w, m, s);
    var n := |w.sent|;
    forall k | 0 <= k < |w'.sent|
      ensures w'.sent[k].seqNum == k + 1 && Shows(w', k, size)
    {
      if k < n {
        SendKeepsShows(w, shown, size, m, s, k);
        assert w.sent[k].seqNum == k + 1;
      } else {
        LastShownPrefix(w, m, s, n, m.symbol);
        LastShownIgnores(w.(sent := w.sent + [m], asOf := w.asOf + [s]), w', n, m.symbol);
      }
    }
    forall symbol: Symbol
      ensures LastShown(w', |w'.sent|, symbol) == if symbol == m.symbol then Some(s) else LastShown(w, n, symbol)
    {
      LastShownPrefix(w, m, s, n, symbol);
      LastShownIgnores(w.(sent := w.sent + [m], asOf := w.asOf + [s]), w', n, symbol);
    }
  }

  lemma TradeSendKeeps(w: Wire, shown: map<Symbol, Screen>, size: nat, m: Message, s: Screen)
    requires Sending(w, shown, size) && m.TradeMsg? && m.seqNum == w.seqNum + 1
    ensures Sending(Send(w, m, s), shown, size)
  {
    var w' := Send(w, m, s);
    var n := |w.sent|;
    forall k | 0 <= k < |w'.sent|
      ensures w'.sent[k].seqNum == k + 1 && Shows(w', k, size)
    {
      if k < n {
        SendKeepsShows(w, shown, size, m, s, k);
        assert w.sent[k].seqNum == k + 1;
      }
    }
    forall symbol: Symbol
      ensures LastShown(w', |w'.sent|, symbol) == LastShown(w, n, symbol)
    {
      LastShownPrefix(w, m, s, n, symbol);
      LastShownIgnores(w.(sent := w.sent + [m], asOf := w.asOf + [s]), w', n, symbol);
    }
  }

  /** Sending does not disturb the subscriber. */
  lemma SendKeepsFollowing(w: Wire, r: Receiver, n: nat, size: nat, m: Message, s: Screen)
    requires Following(w, r, n, size) && |w.sent| == |w.asOf|
    ensures Following(Send(w, m, s), r, n, size)
  {
    forall symbol: Symbol
      ensures LastShown(Send(w, m, s), n, symbol) == LastShown(w, n, symbol)
    {
      LastShownPrefix(w, m, s, n, symbol);
      LastShownIgnores(w.(sent := w.sent + [m], asOf := w.asOf + [s]), Send(w, m, s), n, symbol);
    }
  }

  /** Delivering the next message: the subscriber takes it, and if it is a depth message the
      subscriber's levels for the symbol are what the publisher showed when it was sent. */
  lemma DeliveryShows(w: Wire, shown: map<Symbol, Screen>, r: Receiver, n: nat, size: nat)
    requires Sending(w, shown, size) && Following(w, r, n, size) && n < |w.sent|
    ensures MessageFits(w.sent[n], size) && Fits(ScreenOf(r, w.sent[n].symbol, size), size)
    ensures var r' := Receive(r, w.sent[n], size);
            && Following(w, r', n + 1, size)
            && (w.sent[n].DepthMsg? ==> w.sent[n].symbol in r'.depthMap && r'.depthMap[w.sent[n].symbol] == w.asOf[n])
  {
    var m := w.sent[n];
    assert m.seqNum == n + 1 && Shows(w, n, size);
    var before := ScreenOf(r, m.symbol, size);
    assert LastShown(w, n, m.symbol).Some? ==> before == LastShown(w, n, m.symbol).value;
    var r' := Receive(r, m, size);
    forall symbol | LastShown(w, n + 1, symbol).Some?
      ensures symbol in r'.depthMap && r'.depthMap[symbol] == LastShown(w, n + 1, symbol).value
    {
    }
  }

  /** Once everything has been delivered, the subscriber shows what the publisher last
      published, for every symbol it has heard of. */
  lemma CaughtUpShowsPublished(w: Wire, shown: map<Symbol, Screen>, r: Receiver, size: nat, symbol: Symbol)
    requires Sending(w, shown, size) && Following(w, r, |w.sent|, size) && symbol in w.sentSymbols
    ensures symbol in r.depthMap && r.depthMap[symbol] == shown[symbol]
  {
  }

  const NEW_WIRE := Wire(0, {}, [], [])

  /** A new session starts from scratch, even when its subscriber still has old levels. */
  lemma NewSessionFollows(r: Receiver, shown: map<Symbol, Screen>, size: nat)
    requires forall symbol :: symbol in r.depthMap ==> Fits(r.depthMap[symbol], size)
    ensures Sending(NEW_WIRE, shown, size) && Following(NEW_WIRE, Reset(r), 0, size)
  {
  }

  // ---- One depth change, as one session sees it ----

  function Incremental(symbol: Symbol, bids: seq<DepthLevel>, asks: seq<DepthLevel>, published: nat): Message {
    DepthMsg(0, symbol, Updates(bids, published, false, 0), Updates(asks, published, false, 0))
  }

  function FullMessage(symbol: Symbol, bids: seq<DepthLevel>, asks: seq<DepthLevel>, published: nat): Message {
    DepthMsg(0, symbol, Updates(bids, published, true, 0), Updates(asks, published, true, 0))
  }

  /** A session started for the symbol is told the changes, any other one everything. */
  function Changed(w: Wire, symbol: Symbol, bids: seq<DepthLevel>, asks: seq<DepthLevel>, published: nat): Wire {
    var m := if symbol in w.sentSymbols then Incremental(symbol, bids, asks, published)
        else FullMessage(symbol, bids, asks, published);
    Send(w, Numbered(m, w.seqNum + 1), Screen(Datas(bids), Datas(asks)))
  }

  lemma ChangeKeepsSending(w: Wire, shown: map<Symbol, Screen>, size: nat, symbol: Symbol, bids: seq<DepthLevel>,
                           asks: seq<DepthLevel>,
                           shownBids: seq<Datum>, shownAsks: seq<Datum>, published: nat, change: nat)
    requires Sending(w, shown, size) && |bids| == |asks| == size
    requires StampedSide(bids, shownBids, published, change) && StampedSide(asks, shownAsks, published, change)
    requires symbol in shown ==> shown[symbol] == Screen(shownBids, shownAsks)
    ensures Sending(Changed(w, symbol, bids, asks, published), shown[symbol := Screen(Datas(bids), Datas(asks))], size)
  {
    hide StampedSide, Updates;
    var screen := Screen(Datas(bids), Datas(asks));
    if symbol in w.sentSymbols {
      var m := Numbered(Incremental(symbol, bids, asks, published), w.seqNum + 1);
      IncrementalShows(bids, shownBids, published, change);
      IncrementalShows(asks, shownAsks, published, change);
      DepthSendKeeps(w, shown, size, m, screen);
    } else {
      var m := Numbered(FullMessage(symbol, bids, asks, published), w.seqNum + 1);
      UpdatesInRange(bids, published, true, 0);
      UpdatesInRange(asks, published, true, 0);
      forall t: Screen | Fits(t, size)
        ensures Overwritten(t, m) == screen
      {
        FullShows(t.bids, bids, published);
        FullShows(t.asks, asks, published);
      }
      DepthSendKeeps(w, shown, size, m, screen);
    }
  }
}
