/** The objects of the depth feed: sessions, the connection that fans out to them, the
    publisher and the subscriber. */
module Feed {
  import opened DepthLevels
  import opened Depths
  import opened FeedWire

  /** The three loops over the sessions: trades, incremental updates and full updates. */
  datatype Round = Trade | Incremental | Full

  class DepthFeedSession {
    var connected: bool
    var seqNum: nat
    var sentSymbols: set<Symbol>
    /** Everything sent, and what the publisher showed at the time. */
    ghost var sent: seq<Message>
    ghost var asOf: seq<Screen>

    constructor ()
      ensures Out() == NEW_WIRE && !connected
    {
      connected, seqNum, sentSymbols := false, 0, {};
      sent, asOf := [], [];
    }

    ghost function Out(): Wire
      reads this
    {
      Wire(seqNum, sentSymbols, sent, asOf)
    }

    /** Is the session due a message of this round? */
    predicate Due(round: Round, symbol: Symbol)
      reads this
    {
      connected && match round
        case Trade => true
        case Incremental => symbol in sentSymbols
        case Full => symbol !in sentSymbols
    }

    /** The session's side of the channel once it has got the message of a round, if it is due
        one. */
    ghost function Next(round: Round, message: Message, screen: Screen): Wire
      reads this
    {
      if Due(round, message.symbol) then Send(Out(), Numbered(message, seqNum + 1), screen) else Out()
    }

    /** The round is done for this session. */
    twostate predicate Told(round: Round, message: Message, screen: Screen)
      reads this
    {
      connected == old(connected) && Out() == old(Next(round, message, screen))
    }

    method SetConnected()
      modifies this`connected
      ensures connected
    {
      connected := true;
    }

    /** A failed write drops the session. */
    method OnSend(error: bool)
      modifies this`connected
      ensures connected == (old(connected) && !error)
    {
      if error {
        connected := false;
      }
    }

    /** Number a message and put it on the socket. */
    method Transmit(message: Message, ghost screen: Screen)
      modifies this`seqNum, this`sent, this`asOf
      ensures seqNum == old(seqNum) + 1 && sent == old(sent) + [Numbered(message, seqNum)]
      ensures asOf == old(asOf) + [screen]
    {
      seqNum := seqNum + 1;
      sent, asOf := sent + [Numbered(message, seqNum)], asOf + [screen];
    }

    method SendTrade(message: Message, ghost screen: Screen)
      requires message.TradeMsg?
      modifies this`seqNum, this`sent, this`asOf
      ensures Out() == Send(old(Out()), Numbered(message, old(seqNum) + 1), screen)
    {
      Transmit(message, screen);
    }

    /** Only once the session has been started for the symbol. */
    method SendIncrUpdate(message: Message, ghost screen: Screen) returns (handled: bool)
      requires message.DepthMsg?
      modifies this`seqNum, this`sent, this`asOf
      ensures handled == (message.symbol in sentSymbols)
      ensures Out() == if handled then Send(old(Out()), Numbered(message, old(seqNum) + 1), screen) else old(Out())
    {
      handled := message.symbol in sentSymbols;
      if handled {
        Transmit(message, screen);
        assert sentSymbols + {message.symbol} == sentSymbols;
      }
    }

    /** Only to start the session for the symbol. */
    method SendFullUpdate(message: Message, ghost screen: Screen)
      requires message.DepthMsg?
      modifies this`seqNum, this`sentSymbols, this`sent, this`asOf
      ensures Out() == if message.symbol in old(sentSymbols) then old(Out())
              else Send(old(Out()), Numbered(message, old(seqNum) + 1), screen)
    {
      var isNew := message.symbol !in sentSymbols;
      sentSymbols := sentSymbols + {message.symbol};
      if isNew {
        Transmit(message, screen);
      } else {
        assert sentSymbols == old(sentSymbols);
      }
    }
  }

  /** The sessions that are still connected. */
  function Live(sessions: seq<DepthFeedSession>): seq<DepthFeedSession>
    reads sessions
  {
    if sessions == [] then []
    else if sessions[0].connected then [sessions[0]] + Live(sessions[1..])
    else Live(sessions[1..])
  }

  ghost predicate Different(sessions: seq<DepthFeedSession>) {
    forall i, j :: 0 <= i < j < |sessions| ==> sessions[i] != sessions[j]
  }

  lemma NextSession<T>(s: seq<T>, i: nat, all: seq<T>, k: nat)
    requires i < |s| && k <= |all| && s[i..] == all[k..]
    ensures k < |all| && s[i] == all[k] && all[k..] == [all[k]] + all[k + 1..] && all[k..][1..] == all[k + 1..]
    ensures s[i + 1..] == all[k + 1..]
  {
    assert s[i..][0] == all[k..][0] && s[i..][1..] == s[i + 1..] && |s[i..]| == |all[k..]|;
  }

  lemma OneKept<T>(kept: seq<T>, x: T, rest: seq<T>)
    ensures kept + [x] + rest == kept + ([x] + rest) && kept + [] == kept
  {
  }

  lemma OneDropped<T>(s: seq<T>, i: nat)
    requires i < |s|
    ensures var r := s[..i] + s[i + 1..]; i <= |r| && r[..i] == s[..i] + [] && r[i..] == s[i + 1..]
    ensures s[..i + 1] == s[..i] + [s[i]]
  {
  }

  class DepthFeedConnection {
    var sessions: seq<DepthFeedSession>
    /** What has been published of each symbol, by depths of one size. */
    ghost var shown: map<Symbol, Screen>
    ghost const size: nat

    constructor (ghost size: nat)
      ensures sessions == [] && shown == map[] && this.size == size && Telling()
    {
      sessions := [];
      shown := map[];
      this.size := size;
    }

    /** The sessions are different ones, and those still connected were each last told what is shown
        now, of every symbol they have been started for. */
    ghost predicate Telling()
      reads this, sessions
    {
      Different(sessions) && forall s :: s in sessions && s.connected ==> Sending(s.Out(), shown, size)
    }

    /** A new session: it has been told nothing yet. */
    method OnAccept(session: DepthFeedSession, error: bool)
      requires Telling() && session !in sessions && !session.connected && session.Out() == NEW_WIRE
      modifies this`sessions, session`connected
      ensures sessions == if error then old(sessions) else old(sessions) + [session]
      ensures session.connected == !error
      ensures Telling()
    {
      hide Sending;
      ghost var was := sessions;
      NewSessionFollows(Receiver(1, map[]), shown, size);
      if !error {
        sessions := sessions + [session];
        session.SetConnected();
        assert session.Out() == NEW_WIRE;
        forall s | s in sessions && s.connected
          ensures Sending(s.Out(), shown, size)
        {
          if s != session {
            assert s in was && s.Out() == old(s.Out());
          }
        }
      }
    }

    /** One session of a round: it is told, or dropped; `next` is where the one after it is. */
    method TellOne(i: nat, round: Round, message: Message, ghost screen: Screen) returns (next: nat, handled: bool)
      requires i < |sessions| && message.TradeMsg? == round.Trade?
      modifies this`sessions, sessions[i]
      ensures old(sessions[i]).Told(round, message, screen)
      ensures handled == old(!sessions[i].connected || sessions[i].Due(round, message.symbol))
      ensures next <= |sessions| && sessions[next..] == old(sessions[i + 1..])
      ensures sessions[..next] == old(sessions[..i]) + if old(sessions[i].connected) then [old(sessions[i])] else []
    {
      hide Send, Numbered;
      OneDropped(sessions, i);
      var session := sessions[i];
      next, handled := i, true;
      if session.connected {
        handled := session.Due(round, message.symbol);
        match round {
          case Trade => session.SendTrade(message, screen);
          case Incremental => var sent := session.SendIncrUpdate(message, screen);
          case Full => session.SendFullUpdate(message, screen);
        }
        next := i + 1;
      } else {
        sessions := sessions[..i] + sessions[i + 1..];
      }
    }

    /** A message to every connected session that is due it; the disconnected ones are dropped.
        `allDue` tells whether every connected one was. */
    method SendRound(round: Round, message: Message, ghost screen: Screen) returns (allDue: bool)
      requires message.TradeMsg? == round.Trade? && Different(sessions)
      modifies this`sessions, sessions
      ensures sessions == old(Live(sessions))
      ensures forall s :: s in old(sessions) ==> s.Told(round, message, screen)
      ensures allDue <==> forall s :: s in old(sessions) ==> old(!s.connected || s.Due(round, message.symbol))
    {
      hide Send, Numbered, DepthFeedSession.Next, DepthFeedSession.Due, DepthFeedSession.Out;
      allDue := true;
      ghost var all := sessions;
      ghost var k := 0;
      var i: nat := 0;
      while i < |sessions|
        invariant k <= |all| && i <= |sessions|
        invariant sessions[i..] == all[k..] && sessions[..i] + old(Live(all[k..])) == old(Live(all))
        invariant forall j :: 0 <= j < k ==> all[j].Told(round, message, screen)
        invariant forall j :: k <= j < |all| ==> unchanged(all[j])
        invariant allDue <==> forall j :: 0 <= j < k ==> old(!all[j].connected || all[j].Due(round, message.symbol))
        decreases |all| - k
      {
        NextSession(sessions, i, all, k);
        ghost var rest := old(Live(all[k + 1..]));
        OneKept(sessions[..i], all[k], rest);
        assert forall j {:trigger all[j]} :: 0 <= j < |all| && j != k ==> all[j] != sessions[i];
        var handled: bool;
        i, handled := TellOne(i, round, message, screen);
        allDue := allDue && handled;
        k := k + 1;
      }
    }
  }

  lemma ChangedIs(w: Wire, symbol: Symbol, bids: seq<DepthLevel>, asks: seq<DepthLevel>, published: nat)
    ensures Changed(w, symbol, bids, asks, published)
         == Send(w, Numbered(if symbol in w.sentSymbols then FeedWire.Incremental(symbol, bids, asks, published)
                             else FullMessage(symbol, bids, asks, published), w.seqNum + 1),
                 Screen(Datas(bids), Datas(asks)))
  {
  }

  lemma ChangedStarts(w: Wire, symbol: Symbol, bids: seq<DepthLevel>, asks: seq<DepthLevel>, published: nat)
    ensures symbol in Changed(w, symbol, bids, asks, published).sentSymbols
  {
  }

  lemma {:induction false} LiveAreConnected(sessions: seq<DepthFeedSession>)
    ensures forall s :: s in Live(sessions) ==> s in sessions && s.connected
    ensures forall s :: s in sessions && s.connected ==> s in Live(sessions)
  {
    if sessions != [] {
      LiveAreConnected(sessions[1..]);
    }
  }

  lemma {:induction false} LiveIsDifferent(sessions: seq<DepthFeedSession>)
    requires Different(sessions)
    ensures Different(Live(sessions))
  {
    if sessions != [] {
      LiveIsDifferent(sessions[1..]);
      LiveAreConnected(sessions[1..]);
    }
  }

  lemma {:induction false} LiveIsAll(sessions: seq<DepthFeedSession>)
    requires forall s :: s in sessions ==> s.connected
    ensures Live(sessions) == sessions
  {
    if sessions != [] {
      LiveIsAll(sessions[1..]);
    }
  }

  class DepthFeedPublisher {
    const connection: DepthFeedConnection

    constructor (connection: DepthFeedConnection)
      ensures this.connection == connection
    {
      this.connection := connection;
    }

    /** What was published of the symbol is what this depth counts as shown. */
    ghost predicate Tracks(symbol: Symbol, depth: Depth)
      reads connection`shown, depth`shownBids, depth`shownAsks
    {
      symbol in connection.shown ==> connection.shown[symbol] == Screen(depth.shownBids, depth.shownAsks)
    }

    /** A trade is told to every session that is still connected. */
    method OnTrade(symbol: Symbol, qty: nat, cost: nat)
      requires connection.Telling()
      modifies connection`sessions, connection.sessions
      ensures connection.sessions == old(Live(connection.sessions)) && connection.Telling()
      ensures forall s :: s in connection.sessions ==>
        s in old(connection.sessions) && s.sent == old(s.sent) + [TradeMsg(s.seqNum, symbol, qty, cost)]
    {
      hide Sending, Live, Different;
      ghost var all, live := connection.sessions, Live(connection.sessions);
      LiveAreConnected(all);
      LiveIsDifferent(all);
      var message := TradeMsg(0, symbol, qty, cost);
      ghost var screen := Screen([], []);
      label Built:
      var allDue := connection.SendRound(Round.Trade, message, screen);
      forall s | s in live
        ensures s in all && s.connected && Sending(s.Out(), connection.shown, connection.size)
        ensures s.sent == old(s.sent) + [TradeMsg(s.seqNum, symbol, qty, cost)]
      {
        assert s.Told@Built(Round.Trade, message, screen);
        TradeSendKeeps(old(s.Out()), connection.shown, connection.size, Numbered(message, old(s.seqNum) + 1), screen);
      }
    }

    /** The levels a message carries, front to back. */
    method BuildLevels(depth: Depth, isBid: bool, fullMessage: bool) returns (levels: seq<LevelUpdate>)
      requires depth.Sized()
      ensures levels == Updates(depth.Slots(isBid), depth.lastPublishedChange, fullMessage, 0)
    {
      levels := [];
      var index := 0;
      while index < depth.SIZE
        invariant index <= depth.SIZE
        invariant levels + Updates(depth.Slots(isBid), depth.lastPublishedChange, fullMessage, index)
                  == Updates(depth.Slots(isBid), depth.lastPublishedChange, fullMessage, 0)
      {
        var level := depth.levels[depth.Base(isBid) + index];
        assert level == depth.Slots(isBid)[index];
        if fullMessage || level.ChangedSince(depth.lastPublishedChange) {
          ghost var rest := Updates(depth.Slots(isBid), depth.lastPublishedChange, fullMessage, index + 1);
          assert levels + ([LevelUpdate(index, level.Data())] + rest)
                 == levels + [LevelUpdate(index, level.Data())] + rest;
          levels := levels + [LevelUpdate(index, level.Data())];
        }
        index := index + 1;
      }
    }

    method BuildDepthMessage(symbol: Symbol, depth: Depth, fullMessage: bool) returns (message: Message)
      requires depth.Sized()
      ensures message.DepthMsg? && message.symbol == symbol
      ensures message == if fullMessage then
              FullMessage(symbol, depth.Slots(true), depth.Slots(false), depth.lastPublishedChange)
                         else FeedWire.Incremental(symbol, depth.Slots(true), depth.Slots(false),
                                                   depth.lastPublishedChange)
    {
      var bids := BuildLevels(depth, true, fullMessage);
      var asks := BuildLevels(depth, false, fullMessage);
      message := DepthMsg(0, symbol, bids, asks);
    }

    /** The depth change as a session that gets a message sees it. */
    ghost function After(w: Wire, symbol: Symbol, depth: Depth): Wire
      requires depth.Sized()
      reads depth, depth.levels
    {
      Changed(w, symbol, depth.Slots(true), depth.Slots(false), depth.lastPublishedChange)
    }

    /** The first round: the sessions started for the symbol are told what has changed. */
    method IncrementalRound(symbol: Symbol, depth: Depth) returns (allDue: bool)
      requires depth.Sized() && Different(connection.sessions)
      modifies connection`sessions, connection.sessions
      ensures connection.sessions == old(Live(connection.sessions)) && Different(connection.sessions)
      ensures forall s :: s in connection.sessions ==> s in old(connection.sessions) && s.connected
      ensures forall s :: s in connection.sessions ==>
              s.Out() == if symbol in old(s.sentSymbols) then After(old(s.Out()), symbol, depth) else old(s.Out())
      ensures allDue ==> forall s :: s in connection.sessions ==> symbol in old(s.sentSymbols)
    {
      hide Send, Numbered, Updates, FeedWire.Incremental, Changed;
      ghost var all, live := connection.sessions, Live(connection.sessions);
      LiveAreConnected(all);
      LiveIsDifferent(all);
      assert forall s :: s in live ==> s in all && s.connected;
      var message := BuildDepthMessage(symbol, depth, false);
      ghost var screen := Screen(Datas(depth.Slots(true)), Datas(depth.Slots(false)));
      label Built:
      allDue := connection.SendRound(Round.Incremental, message, screen);
      assert connection.sessions == live;
      forall s | s in live
        ensures s in all && s.connected
        ensures s.Out() == if symbol in old(s.sentSymbols) then After(old(s.Out()), symbol, depth) else old(s.Out())
        ensures allDue ==> symbol in old(s.sentSymbols)
      {
        assert s in all && old(s.connected);
        assert s.Told@Built(Round.Incremental, message, screen);
        ChangedIs(old(s.Out()), symbol, depth.Slots(true), depth.Slots(false), depth.lastPublishedChange);
        assert allDue ==> old(!s.connected || s.Due(Round.Incremental, symbol));
      }
    }

    /** The second round: the others are told everything. */
    method FullRound(symbol: Symbol, depth: Depth)
      requires depth.Sized() && Different(connection.sessions) && forall s :: s in connection.sessions ==> s.connected
      modifies connection`sessions, connection.sessions
      ensures connection.sessions == old(connection.sessions)
      ensures forall s :: s in connection.sessions ==>
        s.connected && s.Out() == if symbol in old(s.sentSymbols) then old(s.Out())
            else After(old(s.Out()), symbol, depth)
    {
      hide Send, Numbered, Updates, FullMessage, FeedWire.Incremental, Changed, Live, Different;
      ghost var all := connection.sessions;
      LiveIsAll(all);
      var message := BuildDepthMessage(symbol, depth, true);
      ghost var screen := Screen(Datas(depth.Slots(true)), Datas(depth.Slots(false)));
      label Built:
      var allDue := connection.SendRound(Round.Full, message, screen);
      assert connection.sessions == all;
      forall s | s in all
        ensures s.connected && s.Out() == if symbol in old(s.sentSymbols) then old(s.Out())
                else After(old(s.Out()), symbol, depth)
      {
        assert old(s.connected);
        assert s.Told@Built(Round.Full, message, screen);
        ChangedIs(old(s.Out()), symbol, depth.Slots(true), depth.Slots(false), depth.lastPublishedChange);
      }
    }

    /** A session that had been told what the depth counts as shown has been told what it shows. */
    lemma ToldSends(w: Wire, symbol: Symbol, depth: Depth)
      requires depth.Valid() && depth.SIZE == connection.size && Tracks(symbol, depth)
      requires Sending(w, connection.shown, connection.size)
      ensures Sending(After(w, symbol, depth), connection.shown[symbol := Screen(Datas(depth.Slots(true)),
                  Datas(depth.Slots(false)))], connection.size)
    {
      hide Sending, Changed, StampedSide, Laid, Populated, Datas;
      ChangeKeepsSending(w, connection.shown, connection.size, symbol, depth.Slots(true), depth.Slots(false),
                         depth.shownBids, depth.shownAsks, depth.lastPublishedChange, depth.lastChange);
    }

    /** Every session that is still connected gets one message: the changes, or everything when
        the symbol is new to it. */
    method BothRounds(symbol: Symbol, depth: Depth)
      requires depth.Sized() && Different(connection.sessions)
      modifies connection`sessions, connection.sessions
      ensures connection.sessions == old(Live(connection.sessions)) && Different(connection.sessions)
      ensures forall s :: s in connection.sessions ==>
        s in old(connection.sessions) && s.connected && s.Out() == After(old(s.Out()), symbol, depth)
    {
      hide Changed, Updates;
      var allDue := IncrementalRound(symbol, depth);
      label Told:
      if !allDue {
        assert forall i {:trigger connection.sessions[i]} :: 0 <= i < |connection.sessions| ==>
               connection.sessions[i] in old(connection.sessions);
        FullRound(symbol, depth);
        forall s | s in connection.sessions
          ensures s.Out() == After(old(s.Out()), symbol, depth)
        {
          ChangedStarts(old(s.Out()), symbol, depth.Slots(true), depth.Slots(false), depth.lastPublishedChange);
          assert symbol in old@Told(s.Out()).sentSymbols ==> s.Out() == old@Told(s.Out());
        }
      }
    }

    /** Where each session had been told what the depth counts as shown, each that is still
        connected has afterwards been told what it shows. */
    method OnDepthChange(symbol: Symbol, depth: Depth)
      requires depth.Valid() && depth.SIZE == connection.size && Tracks(symbol, depth) && connection.Telling()
      modifies connection, connection.sessions
      ensures connection.sessions == old(Live(connection.sessions)) && connection.Telling()
      ensures forall s :: s in connection.sessions ==>
        s in old(connection.sessions) && s.connected && s.Out() == After(old(s.Out()), symbol, depth)
      ensures connection.shown
              == old(connection.shown)[symbol := Screen(Datas(depth.Slots(true)), Datas(depth.Slots(false)))]
    {
      hide Changed, Updates, Sending, StampedSide, Laid, Populated, Datas, Different, Live, MapOf;
      LiveAreConnected(connection.sessions);
      BothRounds(symbol, depth);
      forall s | s in connection.sessions
        ensures Sending(s.Out(), connection.shown[symbol := Screen(Datas(depth.Slots(true)),
                                                                   Datas(depth.Slots(false)))], connection.size)
      {
        ToldSends(old(s.Out()), symbol, depth);
      }
      connection.shown := connection.shown[symbol := Screen(Datas(depth.Slots(true)), Datas(depth.Slots(false)))];
    }
  }

  class DepthFeedSubscriber {
    const size: nat
    var expectedSeq: nat
    var depthMap: map<Symbol, Screen>

    ghost function In(): Receiver
      reads this
    {
      Receiver(expectedSeq, depthMap)
    }

    ghost predicate Valid()
      reads this
    {
      forall symbol :: symbol in depthMap ==> Fits(depthMap[symbol], size)
    }

    constructor (size: nat)
      ensures Valid() && In() == Receiver(1, map[]) && this.size == size
    {
      this.size := size;
      expectedSeq, depthMap := 1, map[];
    }

    method HandleReset()
      requires Valid()
      modifies this`expectedSeq
      ensures Valid() && In() == Reset(old(In()))
    {
      expectedSeq := 1;
    }

    /** Overwrite the levels a message names, one by one. */
    method SetLevels(levels: seq<Datum>, updates: seq<LevelUpdate>) returns (levels': seq<Datum>)
      requires InRange(updates, |levels|)
      ensures levels' == Overwrite(levels, updates)
    {
      levels' := levels;
      var i := 0;
      while i < |updates|
        invariant i <= |updates| && |levels'| == |levels|
        invariant InRange(updates[i..], |levels'|) && Overwrite(levels', updates[i..]) == Overwrite(levels, updates)
      {
        assert updates[i..][0] == updates[i] && updates[i..][1..] == updates[i + 1..];
        levels' := levels'[updates[i].levelNum := updates[i].datum];
        i := i + 1;
      }
    }

    /** A message out of sequence is refused and changes nothing. */
    method HandleMessage(message: Message) returns (ok: bool)
      requires Valid() && MessageFits(message, size)
      modifies this
      ensures Valid() && In() == Receive(old(In()), message, size)
      ensures ok == (message.seqNum == old(expectedSeq))
    {
      if message.seqNum != expectedSeq {
        return false;
      }
      match message
      case DepthMsg(_, symbol, bids, asks) =>
        // create or find the depth
        var screen := if symbol in depthMap then depthMap[symbol] else Screen(Blanks(size), Blanks(size));
        var bids' := SetLevels(screen.bids, bids);
        var asks' := SetLevels(screen.asks, asks);
        depthMap := depthMap[symbol := Screen(bids', asks')];
        expectedSeq := expectedSeq + 1;
        ok := true;
      case TradeMsg(_, _, _, _) =>
        expectedSeq := expectedSeq + 1;
        ok := true;
    }
  }
}
