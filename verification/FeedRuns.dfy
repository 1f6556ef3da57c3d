/** Whole runs of the depth feed: depths that change and are published, trades, sessions that come
    and go, and deliveries, in any order. */
module FeedRuns {
  import opened DepthLevels
  import opened FeedWire

  /** What a depth shows of one symbol: the visible slots of both sides, the stamps of the last
      change and of the last publication, and what was shown then. */
  datatype Market = Market(bids: seq<DepthLevel>, asks: seq<DepthLevel>, published: nat, change: nat, shown: Screen) {
    function Now(): Screen {
      Screen(Datas(bids), Datas(asks))
    }

    ghost predicate Stamped(size: nat) {
      && |bids| == |asks| == size && published <= change
      && StampedSide(bids, shown.bids, published, change) && StampedSide(asks, shown.asks, published, change)
    }
  }

  /** A session with its subscriber, who has been delivered the first messages on it; `told` is what
      was shown of each symbol when the session was last sent to. */
  datatype Session = Session(wire: Wire, told: map<Symbol, Screen>, connected: bool, receiver: Receiver, delivered: nat)

  datatype Feed = Feed(markets: map<Symbol, Market>, shown: map<Symbol, Screen>, sessions: seq<Session>)

  datatype Step =
    | Change(symbol: Symbol, bids: seq<DepthLevel>, asks: seq<DepthLevel>, change: nat)
    | Publish(symbol: Symbol)
    | Trade(symbol: Symbol, qty: nat, cost: nat)
    | Connect(receiver: Receiver)
    | Disconnect(i: nat)
    | Deliver(i: nat)

  /** A change stamps the slots it changes; a message is delivered to a subscriber that can hold it;
      a subscriber connects with whatever levels it has. */
  ghost predicate Enabled(f: Feed, s: Step, size: nat) {
    match s
    case Change(symbol, bids, asks, change) =>
      && symbol in f.markets
      && OnlyStamped(f.markets[symbol].bids, bids, f.markets[symbol].change, change)
      && OnlyStamped(f.markets[symbol].asks, asks, f.markets[symbol].change, change)
    case Publish(symbol) => symbol in f.markets
    case Trade(_, _, _) => true
    case Connect(r) => forall symbol :: symbol in r.depthMap ==> Fits(r.depthMap[symbol], size)
    case Disconnect(i) => i < |f.sessions|
    case Deliver(i) => i < |f.sessions| && CanDeliver(f.sessions[i], size)
  }

  ghost predicate CanDeliver(s: Session, size: nat) {
    && s.delivered < |s.wire.sent|
    && MessageFits(s.wire.sent[s.delivered], size)
    && Fits(ScreenOf(s.receiver, s.wire.sent[s.delivered].symbol, size), size)
  }

  /** A connected session gets one message about the change. */
  function Told(s: Session, symbol: Symbol, m: Market, shown: map<Symbol, Screen>): Session {
    if !s.connected then s
    else s.(wire := Changed(s.wire, symbol, m.bids, m.asks, m.published), told := shown[symbol := m.Now()])
  }

  const NOTHING := Screen([], [])

  function Traded(s: Session, symbol: Symbol, qty: nat, cost: nat): Session {
    if !s.connected then s
    else s.(wire := Send(s.wire, TradeMsg(s.wire.seqNum + 1, symbol, qty, cost), NOTHING))
  }

  function Delivered(s: Session, size: nat): Session
    requires CanDeliver(s, size)
  {
    s.(receiver := Receive(s.receiver, s.wire.sent[s.delivered], size), delivered := s.delivered + 1)
  }

  function Next(f: Feed, s: Step, size: nat): Feed
    requires Enabled(f, s, size)
  {
    match s
    case Change(symbol, bids, asks, change) =>
      f.(markets := f.markets[symbol := f.markets[symbol].(bids := bids, asks := asks, change := change)])
    case Publish(symbol) =>
      var m := f.markets[symbol];
      if m.change <= m.published then f
      else
        Feed(f.markets[symbol := m.(published := m.change, shown := m.Now())], f.shown[symbol := m.Now()],
             seq(|f.sessions|, i requires 0 <= i < |f.sessions| => Told(f.sessions[i], symbol, m, f.shown)))
    case Trade(symbol, qty, cost) =>
      f.(sessions := seq(|f.sessions|, i requires 0 <= i < |f.sessions| => Traded(f.sessions[i], symbol, qty, cost)))
    case Connect(r) => f.(sessions := f.sessions + [Session(NEW_WIRE, f.shown, true, Reset(r), 0)])
    case Disconnect(i) => f.(sessions := f.sessions[i := f.sessions[i].(connected := false)])
    case Deliver(i) => f.(sessions := f.sessions[i := Delivered(f.sessions[i], size)])
  }

  // ---- The invariant ----

  ghost predicate SessionOk(s: Session, shown: map<Symbol, Screen>, size: nat) {
    && Sending(s.wire, s.told, size) && Following(s.wire, s.receiver, s.delivered, size)
    && (s.connected ==> s.told == shown)
  }

  ghost predicate MarketsOk(markets: map<Symbol, Market>, shown: map<Symbol, Screen>, size: nat) {
    && (forall symbol :: symbol in markets ==> markets[symbol].Stamped(size))
    && (forall symbol :: symbol in shown ==> symbol in markets && shown[symbol] == markets[symbol].shown)
  }

  ghost predicate Ok(f: Feed, size: nat) {
    MarketsOk(f.markets, f.shown, size) && forall i :: 0 <= i < |f.sessions| ==> SessionOk(f.sessions[i], f.shown, size)
  }

  lemma ChangeKeepsMarkets(f: Feed, s: Step, size: nat)
    requires MarketsOk(f.markets, f.shown, size) && s.Change? && Enabled(f, s, size)
    ensures MarketsOk(Next(f, s, size).markets, f.shown, size)
  {
    hide StampedSide, OnlyStamped;
    var m := f.markets[s.symbol];
    assert m.Stamped(size);
    StampsKept(m.bids, s.bids, m.shown.bids, m.published, m.change, s.change);
    StampsKept(m.asks, s.asks, m.shown.asks, m.published, m.change, s.change);
    SameSize(m.bids, s.bids, m.change, s.change);
    SameSize(m.asks, s.asks, m.change, s.change);
  }

  lemma SameSize(a: seq<DepthLevel>, b: seq<DepthLevel>, x: nat, y: nat)
    requires OnlyStamped(a, b, x, y)
    ensures |a| == |b| && x <= y
  {
  }

  lemma PublishedSide(slots: seq<DepthLevel>, shown: seq<Datum>, published: nat, change: nat)
    requires StampedSide(slots, shown, published, change)
    ensures StampedSide(slots, Datas(slots), change, change)
  {
  }

  lemma ToldIsOk(s: Session, symbol: Symbol, m: Market, shown: map<Symbol, Screen>, size: nat)
    requires SessionOk(s, shown, size) && m.Stamped(size) && (symbol in shown ==> shown[symbol] == m.shown)
    ensures SessionOk(Told(s, symbol, m, shown), shown[symbol := m.Now()], size)
  {
    hide StampedSide, Sending, Following, Updates;
    if s.connected {
      ChangeKeepsSending(s.wire, shown, size, symbol, m.bids, m.asks, m.shown.bids, m.shown.asks, m.published,
                         m.change);
      var message := if symbol in s.wire.sentSymbols then Incremental(symbol, m.bids, m.asks, m.published)
                     else FullMessage(symbol, m.bids, m.asks, m.published);
      SendingCounts(s.wire, shown, size);
      SendKeepsFollowing(s.wire, s.receiver, s.delivered, size, Numbered(message, s.wire.seqNum + 1), m.Now());
    }
  }

  lemma SendingCounts(w: Wire, shown: map<Symbol, Screen>, size: nat)
    requires Sending(w, shown, size)
    ensures |w.sent| == |w.asOf| == w.seqNum
  {
  }

  lemma TradedIsOk(s: Session, symbol: Symbol, qty: nat, cost: nat, shown: map<Symbol, Screen>, size: nat)
    requires SessionOk(s, shown, size)
    ensures SessionOk(Traded(s, symbol, qty, cost), shown, size)
  {
    hide Sending, Following;
    if s.connected {
      var m := TradeMsg(s.wire.seqNum + 1, symbol, qty, cost);
      TradeSendKeeps(s.wire, shown, size, m, NOTHING);
      SendingCounts(s.wire, shown, size);
      SendKeepsFollowing(s.wire, s.receiver, s.delivered, size, m, NOTHING);
    }
  }

  lemma PublishKeepsOk(f: Feed, symbol: Symbol, size: nat)
    requires Ok(f, size) && symbol in f.markets
    ensures Ok(Next(f, Publish(symbol), size), size)
  {
    hide StampedSide, SessionOk, Datas;
    var m := f.markets[symbol];
    if m.change > m.published {
      var f' := Next(f, Publish(symbol), size);
      assert m.Stamped(size);
      PublishedSide(m.bids, m.shown.bids, m.published, m.change);
      PublishedSide(m.asks, m.shown.asks, m.published, m.change);
      forall i | 0 <= i < |f'.sessions|
        ensures SessionOk(f'.sessions[i], f'.shown, size)
      {
        ToldIsOk(f.sessions[i], symbol, m, f.shown, size);
      }
    }
  }

  /** Whatever happens next, the invariant is kept. */
  lemma NextKeepsOk(f: Feed, s: Step, size: nat)
    requires Ok(f, size) && Enabled(f, s, size)
    ensures Ok(Next(f, s, size), size)
  {
    hide SessionOk, MarketsOk, CanDeliver;
    var f' := Next(f, s, size);
    match s
    case Change(_, _, _, _) => ChangeKeepsMarkets(f, s, size);
    case Publish(symbol) => PublishKeepsOk(f, symbol, size);
    case Trade(symbol, qty, cost) =>
      forall i | 0 <= i < |f'.sessions|
        ensures SessionOk(f'.sessions[i], f'.shown, size)
      {
        TradedIsOk(f.sessions[i], symbol, qty, cost, f.shown, size);
      }
    case Connect(r) => ConnectedIsOk(r, f.shown, size);
    case Disconnect(i) => DisconnectedIsOk(f.sessions[i], f.shown, size);
    case Deliver(i) => DeliveredIsOk(f.sessions[i], f.shown, size);
  }

  lemma ConnectedIsOk(r: Receiver, shown: map<Symbol, Screen>, size: nat)
    requires forall symbol :: symbol in r.depthMap ==> Fits(r.depthMap[symbol], size)
    ensures SessionOk(Session(NEW_WIRE, shown, true, Reset(r), 0), shown, size)
  {
    NewSessionFollows(r, shown, size);
  }

  lemma DisconnectedIsOk(s: Session, shown: map<Symbol, Screen>, size: nat)
    requires SessionOk(s, shown, size)
    ensures SessionOk(s.(connected := false), shown, size)
  {
  }

  lemma DeliveredIsOk(s: Session, shown: map<Symbol, Screen>, size: nat)
    requires SessionOk(s, shown, size) && CanDeliver(s, size)
    ensures SessionOk(Delivered(s, size), shown, size)
  {
    hide Sending, Following, Receive;
    DeliveryShows(s.wire, s.told, s.receiver, s.delivered, size);
  }

  // ---- Runs ----

  ghost predicate Runs(f: Feed, ss: seq<Step>, f': Feed, size: nat)
    decreases |ss|
  {
    if ss == [] then f' == f else Enabled(f, ss[0], size) && Runs(Next(f, ss[0], size), ss[1..], f', size)
  }

  lemma {:induction false} RunKeepsOk(f: Feed, ss: seq<Step>, f': Feed, size: nat)
    requires Ok(f, size) && Runs(f, ss, f', size)
    ensures Ok(f', size)
    decreases |ss|
  {
    hide Ok, Enabled, Next;
    if ss != [] {
      NextKeepsOk(f, ss[0], size);
      RunKeepsOk(Next(f, ss[0], size), ss[1..], f', size);
    }
  }

  /** A feed starts with depths that show nothing, and no session. */
  ghost predicate Starts(f: Feed, size: nat) {
    && f.shown == map[] && f.sessions == []
    && forall symbol :: symbol in f.markets ==> f.markets[symbol].Stamped(size)
  }

  /** In every run, a session with an undelivered message can deliver it; and when it is a depth
      message, the subscriber's levels for its symbol are then exactly what the depth showed when the
      message was sent. */
  lemma DeliveredAsSent(f: Feed, ss: seq<Step>, f': Feed, i: nat, size: nat)
    requires Starts(f, size) && Runs(f, ss, f', size)
    requires i < |f'.sessions| && f'.sessions[i].delivered < |f'.sessions[i].wire.sent|
    ensures Enabled(f', Deliver(i), size)
    ensures var s, s' := f'.sessions[i], Next(f', Deliver(i), size).sessions[i];
            var n := s.delivered;
            s.wire.sent[n].DepthMsg? ==>
              && n < |s.wire.asOf| && s.wire.sent[n].symbol in s'.receiver.depthMap
              && s'.receiver.depthMap[s.wire.sent[n].symbol] == s.wire.asOf[n]
  {
    RunKeepsOk(f, ss, f', size);
    var s := f'.sessions[i];
    assert SessionOk(s, f'.shown, size);
    DeliveryShows(s.wire, s.told, s.receiver, s.delivered, size);
  }

  /** A publication sends every connected session exactly one message, a depth message about the
      symbol, with the levels of the depth as they are; it sends the others nothing. */
  lemma PublishTells(f: Feed, symbol: Symbol, i: nat, size: nat)
    requires symbol in f.markets && f.markets[symbol].change > f.markets[symbol].published && i < |f.sessions|
    ensures var s, s' := f.sessions[i], Next(f, Publish(symbol), size).sessions[i];
            if !s.connected then s' == s
            else
              && |s'.wire.sent| == |s.wire.sent| + 1 && s'.wire.sent[..|s.wire.sent|] == s.wire.sent
              && s'.wire.asOf == s.wire.asOf + [f.markets[symbol].Now()]
              && var m := s'.wire.sent[|s.wire.sent|]; m.DepthMsg? && m.symbol == symbol
  {
    hide Updates, Datas;
  }

  lemma {:induction false} UnchangedShows(slots: seq<DepthLevel>, shown: seq<Datum>, change: nat)
    requires StampedSide(slots, shown, change, change)
    ensures Datas(slots) == shown
  {
    forall j | 0 <= j < |slots|
      ensures Datas(slots)[j] == shown[j]
    {
      assert slots[j].lastChange <= change;
    }
  }

  /** In every run, a connected subscriber that has been delivered everything shows, of every symbol
      its session has been started for, what was last published; and that is what the depth shows now
      when nothing has changed since. */
  lemma CaughtUpShowsDepth(f: Feed, ss: seq<Step>, f': Feed, i: nat, symbol: Symbol, size: nat)
    requires Starts(f, size) && Runs(f, ss, f', size)
    requires i < |f'.sessions| && f'.sessions[i].connected && f'.sessions[i].delivered == |f'.sessions[i].wire.sent|
    requires symbol in f'.sessions[i].wire.sentSymbols
    ensures symbol in f'.markets && symbol in f'.sessions[i].receiver.depthMap
    ensures f'.sessions[i].receiver.depthMap[symbol] == f'.markets[symbol].shown
    ensures f'.markets[symbol].change == f'.markets[symbol].published ==>
              f'.sessions[i].receiver.depthMap[symbol] == f'.markets[symbol].Now()
  {
    hide StampedSide, Datas;
    RunKeepsOk(f, ss, f', size);
    var s, m := f'.sessions[i], f'.markets;
    assert SessionOk(s, f'.shown, size);
    CaughtUpShowsPublished(s.wire, s.told, s.receiver, size, symbol);
    SentIsShown(s.wire, s.told, size, symbol);
    assert m[symbol].Stamped(size);
    if m[symbol].change == m[symbol].published {
      UnchangedShows(m[symbol].bids, m[symbol].shown.bids, m[symbol].change);
      UnchangedShows(m[symbol].asks, m[symbol].shown.asks, m[symbol].change);
    }
  }

  lemma SentIsShown(w: Wire, shown: map<Symbol, Screen>, size: nat, symbol: Symbol)
    requires Sending(w, shown, size) && symbol in w.sentSymbols
    ensures symbol in shown
  {
  }
}
