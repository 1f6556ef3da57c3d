# Liquibook: the matching engine, the depth it publishes, and the feed that carries it

A model of Liquibook's core and proofs of what it promises. `dafny verify dfyconfig.toml` checks
everything.

**The order book.** A book keeps bids, asks and held stop orders in price order, a market price, a
queue of released stop orders and a queue of callbacks. A request (`add`, `cancel`, `replace`,
`set_market_price`) matches regular, all-or-none and immediate-or-cancel orders, re-checks deferred
all-or-none orders, and releases stop orders until none is pending. `Matching` and `Requests` say
what each step computes; `OrderBooks` is the object with its loops and in-place changes, and each of
its methods is proved to do exactly that. `RequestRuns.Handle` is one request with the delivery of
its callbacks; `RequestInvariants` proves the invariant `System.Inv` of every reachable state, and
`Results`, `OrderStates`, `AonResults`, `UncrossedResults`, `WaitResults`, `QuoteResults`,
`StopResults`, `Answers`, `LimitResults`, `MoveLimits` and `DepthResults` draw the main results from
it. Who trades with whom is in `Priority`, `AonPriority`, `AonPairs`, `WaitingAons` and `Rechecks`.

How the proofs hang together:

- A match is first proved to be a *run of fills* (`Faces.Runs`), whatever kind of order comes in.
  Conservation, limits, "a side only shrinks" and the depth agreement are then proved once, by
  induction over runs of fills, not once per kind of match.
- `BookRuns`, `Cascade` and `RequestInvariants` carry these facts from one match to one order added,
  to the cascade of released stop orders, to a request, and to any run of requests.
- `Depths` is the fixed array with its overflow, proved to be the map from prices it speeds up
  (`DepthSpec`); `DepthRuns` to `DepthResults` prove that folding the callbacks of a request over the
  map for the old book gives the map for the new one.
- `FeedWire` is the replication protocol on values, `FeedRuns` proves what subscribers see over whole
  runs of it, and `Feed` is its objects. `DepthBooks` drives the depth and tells the feed before a
  change counts as published; `SimpleOrders` puts the application's order objects on top, and
  `SimpleMarkets` runs the engine and hands what it delivers to all of them.
- `IntText`, `JulianDates`, `Timestamps`, `Fields`, `FieldMaps` and `FieldMapObjects` are the FIX
  primitives the publisher builds its messages with.

Where the code does not do what its comments or names promise, the code is modelled as it is, a
lemma has an input on which it fails, and the condition under which it does is proved, exactly where
a name says so:

- stop orders released too early: `Cascade.ReleasedIffReachedExactlyWhen`, `StopReleasedEarly`;
- an all-or-none order filled in part when no price is known: `AllOrNone.TryFallsShortExactlyWhen`,
  `UnpricedAonPartlyFilled`;
- all-or-none orders that would make up the size of another one, and are not found:
  `AonPairs.AonWithOneExactlyWhen`, `CombinationIsMissed`;
- a crossed book after a replacement: `UncrossedResults.UncrossedExactlyWhen`, `ReplaceCrossesBook`;
- a fill at a price that a replaced order no longer accepts: `MoveLimits.MoveWithinLimitsExactlyWhen`,
  `MarketPriceBreaksLimit`, `LimitResults.ReplaceBreaksLimit`;
- a depth that overstates a level after a replacement, after an unfilled immediate-or-cancel order,
  and after one dropped in a cascade: `DepthReplace.ReplaceFollowedExactlyWhen`,
  `FilledMoveOverstatesLevel`, `DepthIoc.RemainderFollowedExactlyWhen`, `RemainderOverstatesLevel`,
  `DepthResults.RequestFollowedExactlyWhen`, `DepthIoc.DroppedOverstatesLevel`;
- `operator!=` of prices: `Prices.NotEqualNegatesEqualExactlyWhen`, `NotEqualMisjudges`;
- body length and checksum of messages with groups whose count was not set, set by hand, or set
  twice: `FieldMaps.LengthOfTextExactlyWhen`, `TotalOfTextExactlyWhen`, `UncountedGroupMismatch`,
  `RepeatedCountMismatch`, `FieldMapObjects.SetFieldKeepsWholeExactlyWhen`.

Assumptions on callers, all in `RequestRuns.Proper`: an order object is new, unfilled and has cost
nothing when it is added, and is added once; cancel and replace name orders the application knows; as long as there is no market
price, an all-or-none market order and another market order are not on opposite sides of the book;
nobody sets the market price to zero. Orders are named by identities that stand for the source's
pointers. Quantities, prices, costs and change numbers are unbounded naturals; the text and date
functions keep the 32-bit range explicit.

## Model

| member | source | states |
|---|---|---|
| `RequestInvariants.HandleKeepsInv` | src/book/order_book.h:391-545 | Every proper request (add, cancel, replace, market price) with the delivery of its callbacks keeps the invariant: both sides sorted and one-sided, keys equal order prices, every order at one place, quantities conserved, filled quantity and cost of every order those of its fills in the history, live and retired all-or-none orders unfilled, every fill between a buy and a sell. Proper is a check on the request and the state before it. |
| `RequestInvariants.RunKeepsInv` | src/book/order_book.h:391-545 | The invariant holds after any number of proper requests. |
| `RequestInvariants.StartHasInv` | src/book/order_book.h:306-317 | The empty book has it, so every reachable state does. |
| `Results.RestingMirrorsOrder` | src/simple/simple_order_book.h:33-62 | In every reachable state a resting order's application order is accepted, on its side, at its key's price, with exactly the tracker's quantity open, more than zero, and it is not immediate-or-cancel. |
| `Results.RestingAonNeverFilled` | src/book/order_book.h:677-967 | In every reachable state no resting all-or-none order has been filled at all, over the whole history. |
| `AonResults.RetiredAonNeverFilled` | src/book/order_book.h:435-471 | Nor has any all-or-none order that was cancelled, or whose remainder was dropped. |
| `AonResults.AddedAonAllOrNothing` | src/book/order_book.h:677-967 | From the moment an all-or-none order is added, through any run of requests: the history has no fill of it, or fills that add up to its whole size. |
| `AonResults.HandleKeepsAon` | src/book/order_book.h:391-545 | No request makes an all-or-none order a regular one, wherever it is. |
| `Results.QuantityConserved` | src/book/order_book.h:391-545 | For every order: its size, replacements included, is what it has open in the book, plus its fill callbacks over the whole history, plus what was cancelled or dropped. |
| `Results.BoughtEqualsSoldSoFar` | src/book/order_book.h:969-1017 | Over the whole history the buy orders' fills and the sell orders' fills add up to the same. |
| `Results.PaidEqualsReceivedSoFar` | src/book/order_book.h:969-1017 | Over the whole history the buy orders' fills and the sell orders' fills have cost the same, quantity times price. |
| `Results.OrderKeepsAccount` | src/simple/simple_order_book.h:33-62 | After any run of requests: what an order says it was filled for, and what that cost, is the sum of the quantities of its fills in the history, and of quantity times price, counted on both ends of each fill. |
| `OrderStates.StateIsTold` | src/simple/simple_order.cpp:102-133 | After any run of requests the state of an order is what the callbacks have told: new until accepted, cancelled once cancelled, and otherwise complete exactly when its fills add up to its size. |
| `OrderStates.HandleKeepsStates` | src/simple/simple_order.cpp:102-133 | Every proper request keeps the state of every order right in this sense. |
| `Results.FindsExactlyResting` | src/book/order_book.h:608-631 | The lookup finds an order exactly when it rests, and then its own node. |
| `UncrossedResults.HandleKeepsUncrossed` | src/book/order_book.h:473-545 | After any request that does not strand a market order, no resting regular bid and resting regular ask match, one of them being a limit order. Stranded is: a resting regular market order is given a limit price while a regular market order rests on the other side and there is no market price. |
| `UncrossedResults.UncrossedExactlyWhen` | src/book/order_book.h:969-1017 | When the other side of a replaced order has no all-or-none order: a request on an uncrossed book leaves it uncrossed if and only if it strands no market order. |
| `UncrossedResults.ReplaceCrossesBook` | src/book/order_book.h:473-545 | The failing input: two market orders for 10 without a market price, and the bid replaced to the limit 100. |
| `UncrossedResults.RunKeepsUncrossed` | src/book/order_book.h:636-790 | The same over any run of requests that strand none. |
| `WaitResults.RestingAonNotFillable` | src/book/order_book.h:677-700 | After any run of requests, whatever they are: a resting all-or-none order is open for more than the regular orders opposite that it crosses have together; facing regular orders only, for more than it crosses at all. |
| `WaitResults.HandleKeepsWaiting` | src/book/order_book.h:391-545 | Every proper request, re-checks and cascade included, keeps that for every resting all-or-none order. |
| `QuoteResults.RequestQuoted` | src/book/order_book.h:969-1017 | The fills of every request, in turn: each is made at the price of the matched order as it was before the request; when that is a market order, at the inbound one's; when both are, at the market price of the moment, which is the price of the fill before. The market price afterwards is that of the last fill, or what it was. |
| `QuoteResults.FillIsQuoted` | src/book/order_book.h:969-1017 | The same said of one fill of a request by its place. |
| `Answers.ReplaceAnswers` | src/book/order_book.h:473-545 | A replacement of any resting order: its size is then the larger of what is filled and size plus change; its price the new one, or the old one for price 0; the first callback says so; and it is closed by a cancel callback if and only if size plus change is no more than what is filled. |
| `Answers.ReplaceRejected` | src/book/order_book.h:473-545 | A replacement of an order that does not rest is rejected and changes nothing else. |
| `Answers.CancelAnswers` | src/book/order_book.h:435-471 | A cancellation of a resting order reports what the order had open, makes it cancelled, takes its node out and leaves the rest of the book as it is. |
| `Answers.CancelRejected` | src/book/order_book.h:435-471 | A cancellation of an order that does not rest is rejected and changes nothing else. |
| `Answers.EmptyOrderRejected` | src/book/order_book.h:391-398 | An order without a size is rejected; the book stays as it is. |
| `Answers.AddAnswers` | src/book/order_book.h:391-433 | The first callback of any other added order accepts it, and the last one is the book update. |
| `Answers.RemainderCancelled` | src/book/order_book.h:413-420 | An added order that is not held gets a cancel callback in its own request if and only if it is immediate-or-cancel and its first match has not filled it; the callback follows the fills of that match at once. |
| `Answers.MatchedExactlyWhen` | src/book/order_book.h:391-545 | When no stop order waits to be submitted, `add` and `replace` return that there was a match if and only if the request has fills. |
| `LimitResults.RequestFairlyPriced` | src/book/order_book.h:969-1017 | For every request: each of its fills, stop releases and re-checks included, is within the limits that both orders have afterwards, unless its price was taken from the old limit of the order that the request moves. |
| `LimitResults.RequestWithinLimits` | src/book/order_book.h:636-718 | Every fill of a request that changes no price is at or below the buyer's limit and at or above the seller's. |
| `LimitResults.MoveWithinLimits` | src/book/order_book.h:473-545 | So is every fill of a replacement that changes the price, when the other side has only regular limit orders and no stop order is held or pending. |
| `LimitResults.ReplaceBreaksLimit` | src/book/order_book.h:473-545 | The failing input: a resting sale of 10 at 100, replaced to 20 at 110, trades with an all-or-none market purchase at 100, which its new limit does not accept. |
| `MoveLimits.MoveWithinLimitsExactlyWhen` | src/book/order_book.h:969-1017 | With nothing held or pending and only regular orders opposite, the fills of a replaced regular order are within its new limit if and only if it does not meet a market order while its old price, or without one the market price, is one that the new limit does not accept. |
| `MoveLimits.MarketPriceBreaksLimit` | src/book/order_book.h:969-1017 | The failing input: two market orders rest, the market price is set to 100 from outside, and the bid is replaced to the limit 90: it trades at 100. |
| `DepthResults.DepthShowsBook` | src/book/depth_order_book.h:87-162 | From an empty book and depth, after any run of requests the depth follows, folding the callbacks never fails and gives, per price, the number and summed open quantity of the resting and held limit orders; nothing is left to ignore. |
| `DepthResults.RunKeepsDepth` | src/book/depth_order_book.h:87-162 | The same from any state whose depth shows the book. |
| `DepthResults.RequestKeepsDepth` | src/book/depth_order_book.h:87-162 | One request: every level looked up exists, no exception fires, the ignore counters are back at zero, and the depth shows the new book. |
| `DepthResults.RequestFollowedExactlyWhen` | src/book/depth_order_book.h:87-162 | A request whose own callbacks the depth follows is followed as a whole if and only if the cascade after it drops no remainder of a limit immediate-or-cancel order, which it does without a callback. |
| `DepthResults.CheckedIsFollowed` | src/book/depth_order_book.h:87-162 | A check that a caller can make before the request is enough: no held or pending limit stop order is immediate-or-cancel, an added limit order of that kind is alone at its price, and a replacement keeps the price or moves an unfilled order. |
| `DepthResults.CheckedRunKeepsDepth` | src/book/depth_order_book.h:87-162 | Over any run of requests that pass the check, the depth shows the book at the end. |
| `DepthReplace.ReplaceFollowedExactlyWhen` | src/book/order_book.h:1142-1146 | The depth after a replace callback is right if and only if a limit order keeps its price or is unfilled; a market order must not change at all. |
| `DepthReplace.FilledMoveOverstatesLevel` | src/book/order_book.h:1142-1146 | The failing input: a bid for 10 at 100 of which 4 are filled moves to 101, and the depth shows 10 there. |
| `DepthReplace.CancelledShows` | src/book/depth_order_book.h:139-150 | The cancel callback of a resting order takes exactly its share out of the depth. |
| `DepthIoc.EmptyCancelFollowedExactlyWhen` | src/book/order_book.h:417-420 | A cancellation that reports quantity 0 leaves the depth right if and only if it closes the last order of its level, or the order is a market order. |
| `DepthIoc.RemainderFollowedExactlyWhen` | src/book/order_book.h:391-433 | Accept, fills and cancel of an immediate-or-cancel order of which something is left: the depth shows the book if and only if it is a market order or nothing else was at its price. |
| `DepthIoc.RemainderShows` | src/book/order_book.h:391-433 | The whole request of such an order alone at its price, cascade included: the depth shows the book if and only if the cascade drops no limit order. |
| `DepthIoc.RemainderOverstatesLevel` | src/book/order_book.h:391-433 | The failing input: an immediate-or-cancel bid for 8 at 100 beside a bid for 5; the book is as before, and the depth shows 13. |
| `DepthIoc.DroppedOverstatesLevel` | src/book/order_book.h:587-598 | The failing input: a released stop order to buy 5 at 90, immediate-or-cancel, is pending when a sale at 200 is added; it is dropped without a callback, and the depth still shows its 5. |
| `Priority.MatchRegularIsGreedy` | src/book/order_book.h:720-790 | The matching loop gives exactly the trades and the remaining side of the greedy walk in book order, which skips only all-or-none orders larger than what is left; the early break loses nothing. Every trade must find a price: the inbound order's, the market's, or that of every crossing order. |
| `Priority.GreedyHasPriority` | src/book/order_book.h:720-790 | If a resting order trades, every regular order ahead of it crosses and was completely filled. |
| `Priority.GreedyIsMaximal` | src/book/order_book.h:720-790 | An all-or-none order gives everything or nothing; no more is taken than wanted; if some is left over, no crossing order could still have used it. |
| `Priority.GreedyNeedsCrossing` | src/book/order_book.h:731-734 | Only crossing orders give anything. |
| `Priority.AonMatchFilledExactlyWhen` | src/book/order_book.h:794-967 | An inbound all-or-none order facing regular orders, with a price for every trade, is filled if and only if the crossing orders' open quantities add up to its size; otherwise nothing changes. |
| `Priority.AonFilledIffEnough` | src/book/order_book.h:794-905 | The same from any point of the loop, with some orders already deferred. |
| `AllOrNone.MatchAonRuns` | src/book/order_book.h:794-905 | The match of an all-or-none order is a run of valid fills (a resting all-or-none order is always taken whole) that fills the inbound order completely, or it changes nothing, unless a try falls short: one in which the deferred orders pay for a part only. |
| `AllOrNone.UnpricedAonPartlyFilled` | src/book/order_book.h:969-1017 | The failing input: an all-or-none market sale of 10, without a market price, facing a market bid for 5 and limit bids for 3 and 5, is filled for 3: the planned trade with the market bid finds no price and does nothing. It is a match in which a try falls short. |
| `AllOrNone.ExecPlanRuns` | src/book/order_book.h:936-964 | The second pass over the deferred orders is a run of valid fills, and trades exactly what is paid for: nothing until one of them finds a price, and what was planned from then on. |
| `AllOrNone.TryFallsShortExactlyWhen` | src/book/order_book.h:910-967 | The second pass trades less than the first pass planned if and only if the first order that is to give anything finds no price; it has then filled the inbound order in part if and only if a later one finds one. |
| `AllOrNone.PaidExactlyWhen` | src/book/order_book.h:936-964 | What is paid for never exceeds the plan, is the plan if and only if the first giving order finds a price, and is something if and only if any of them does. |
| `AllOrNone.PayableIsSafe` | src/book/order_book.h:794-905 | With a price for every order it crosses, no try falls short. |
| `AllOrNone.PlanIgnoresOthers` | src/book/order_book.h:910-935 | Trading with one deferred order changes neither the others nor what is planned for them. |
| `WaitingAons.AonTakesRegular` | src/book/order_book.h:794-905 | An inbound all-or-none order is filled when the regular orders it crosses have enough for it, whatever all-or-none orders are between them, with a price for every trade; from any point of the loop. |
| `AonPriority.AonTradesAsRegular` | src/book/order_book.h:794-905 | Facing regular orders with enough, it trades with the same orders, for the same quantities, in the same order as a regular order of its size, and leaves the same side. |
| `AonPriority.AonTradesGreedily` | src/book/order_book.h:794-905 | The same against the greedy walk, from any point of the loop. |
| `AonPairs.EqualIsEnough` | src/book/order_book.h:794-905 | It is filled when it crosses any order of exactly its own size, all-or-none or not, whatever else is on the side. |
| `AonPairs.AonWithOneExactlyWhen` | src/book/order_book.h:794-967 | Crossing one all-or-none order among regular ones, it is filled if and only if the regular ones have enough for it, or for what the other one, being no larger, leaves of it. |
| `AonPairs.CombinationIsMissed` | src/book/order_book.h:794-905 | The failing input: a sale of 10, all or none, meets all-or-none bids for 6 and 7 and a bid for 3, and is not filled, although 7 and 3 would do. |
| `WaitingAons.MatchRegularDefers` | src/book/order_book.h:720-790 | A regular order that comes out unfilled has deferred exactly the crossing all-or-none orders that are left, in book order. |
| `Rechecks.MatchAonDefers` | src/book/order_book.h:794-905 | An all-or-none order that is not filled has deferred exactly the crossing all-or-none orders larger than itself, in book order. |
| `Faces.MatchRegularRuns` | src/book/order_book.h:720-790 | The match of a regular order is a run of valid fills: each of a crossing, findable order, and a resting all-or-none order only whole. |
| `Faces.TradeRuns` | src/book/order_book.h:969-1017 | One trade is a run of at most one fill, and does to tracker, side and stop orders what the fill says. |
| `Accounting.RunConserves` | src/book/order_tracker.h:84-128 | Over any run of fills, for every order: what is open plus what was filled stays the same. |
| `Accounting.RunShrinksSide` | src/book/order_book.h:720-790 | A run of fills only takes orders away or makes them smaller, and keeps the side sorted, one-sided and without duplicates. |
| `Accounting.MarketPriceKeepsStops` | src/book/order_book.h:341-359 | A new market price moves held orders to the pending list and loses none. |
| `BookRuns.AddOrderKeeps` | src/book/order_book.h:636-700 | Adding an order (match, rest, re-check of deferred all-or-none orders) keeps the book in order and every order's total. |
| `BookRuns.CheckDeferredKeeps` | src/book/order_book.h:677-700 | Re-checking deferred orders keeps both sides in order and every order's total, whatever trades. |
| `WaitingAons.RecheckMissesNone` | src/book/order_book.h:677-700 | If every all-or-none order that the regular orders opposite could fill is among those re-checked, none is left afterwards that they could fill, and no regular order has grown. |
| `WaitingAons.AddOrderKeepsWaiting` | src/book/order_book.h:636-700 | Adding an order leaves no all-or-none order, on either side, that the regular orders opposite could fill. |
| `WaitingAons.AddedLeavesWaiting` | src/book/order_book.h:636-700 | With regular orders only on the side of the added order: every all-or-none order left opposite crosses less than it is open for. |
| `Rechecks.RestsAndRechecks` | src/book/order_book.h:636-675 | An order that comes to rest has exactly these re-checked, in book order: the all-or-none orders left opposite that it crosses, and only the larger ones when it is all-or-none itself. |
| `Rechecks.RecheckedInTurn` | src/book/order_book.h:677-700 | The orders are re-checked one after the other, each against what the ones before have left. |
| `Rechecks.AddedAonLeavesWaiting` | src/book/order_book.h:636-700 | When an all-or-none order has come to rest among regular orders and is still there: every larger all-or-none order opposite crosses less than it is open for, the new order included. |
| `Uncrossed.MatchRegularClears` | src/book/order_book.h:720-790 | What a match leaves on the other side is all-or-none or does not cross the rest of the inbound order: the break is sound because matching is downward closed. |
| `Uncrossed.AddOrderKeepsUncrossed` | src/book/order_book.h:636-700 | Adding an order that finds a price with every order it crosses to an uncrossed book leaves it uncrossed, re-checks included. |
| `Uncrossed.SubmitPendingKeepsUncrossed` | src/book/order_book.h:423-428 | So does the whole cascade of stop orders. |
| `Trades.AddOrderIsGood` | src/book/order_book.h:969-1017 | Every fill of adding an order pairs a buy with a sell, at a price both accept while no price is being changed. |
| `Trades.SubmitPendingIsGood` | src/book/order_book.h:969-1017 | So does every fill of the cascade. |
| `Trades.BoughtEqualsSold` | src/book/order_book.h:969-1017 | Fills that pair a buy with a sell add up to the same on both sides. |
| `Cascade.ReleaseIsPartition` | src/book/order_book.h:569-585 | The release takes exactly the held orders that are not ordered after the new price. |
| `Cascade.ReleasedIffReachedExactlyWhen` | src/book/order_book.h:569-585 | Release agrees with "the market has reached the stop price" if and only if every held order of the side sits at the new price. |
| `Cascade.StopReleasedEarly` | src/book/order_book.h:573-583 | A buy stop at 110 is released when the market rises to 105 only. |
| `StopResults.HeldExactlyWhen` | src/book/order_book.h:547-567 | A stop order is held if and only if there is a market price and it has not reached the stop price. |
| `StopResults.UnreachedStopIsHeld` | src/book/order_book.h:391-428 | Adding such an order, with nothing pending: it is accepted with no fill, joins the held orders of its side at its stop price behind all that are not after it, and nothing else changes. |
| `StopResults.UnreachedStopJoins` | src/book/order_book.h:391-428 | With stop orders pending: it has joined in this way before the cascade begins, from which all fills of the request come. |
| `StopResults.ReachedStopIsMatched` | src/book/order_book.h:391-433 | A stop order whose price has been reached, or any order without a stop or a market price, is matched at once, with the accept callback of that match. |
| `StopResults.PriceMovesOneSide` | src/book/order_book.h:341-359 | A rise of the market price, or a first one, leaves the held sell stops alone; a fall leaves the buy stops alone; the same price again changes nothing. |
| `StopResults.PriceReleases` | src/book/order_book.h:341-359 | On the side it moves, a new price keeps exactly the stop orders below it (buys) or above it (sells); the others join the pending ones, all in their order. |
| `StopResults.MarketPriceReleases` | src/book/order_book.h:341-359 | A market price set from outside in any reachable state does exactly this, and changes nothing else. |
| `StopResults.RunKeepsHeldRight` | src/book/order_book.h:547-567 | Over any run of requests every held order has a stop price, and is held at it on its own side. |
| `Cascade.RoundShrinksLoad` | src/book/order_book.h:423-428 | Every round of the pending loop leaves fewer held and pending orders: the cascade ends. |
| `Cascade.SubmitPendingKeeps` | src/book/order_book.h:587-598 | The cascade leaves nothing pending and keeps every order's total; every order held before is afterwards still held or was submitted, once. |
| `Quotes.SubmittedInTurn` | src/book/order_book.h:587-606 | Waiting orders are submitted one after the other, each to the book that the ones before have left. |
| `Quotes.AddTrails` | src/book/order_book.h:969-1017 | Every submission: market price, held and pending orders afterwards are those before with the price of each fill set in turn. |
| `DepthRuns.FillAgrees` | src/book/depth_order_book.h:112-135 | One fill: the depth of the two sides follows it, for resting and inbound orders, limit or market, filled or not. |
| `DepthRuns.RunAgrees` | src/book/depth_order_book.h:112-135 | A run of fills: every level is found, and the depth is what the sides then have. |
| `DepthRuns.RunIgnored` | src/book/depth.h:240-275 | While the inbound order is filled at once, the ignore counter takes up exactly its fills and ends at zero. |
| `DepthCascade.AddOrderAgrees` | src/book/depth_order_book.h:112-135 | The fills of adding an order take a depth that agrees with the book to one that agrees with the new book. |
| `DepthCascade.SubmitPendingAgrees` | src/book/depth_order_book.h:112-135 | So do the fills of the whole cascade. |
| `DepthRequests.AddedShows` | src/book/depth_order_book.h:87-135 | An added order that is not held and leaves no limit remainder, rested, partly filled or filled at once: the depth follows the request if and only if the cascade after it drops no limit order. |
| `DepthRequests.HeldShows` | src/book/depth_order_book.h:87-110 | The same for a stop order that is held back: it is shown at its limit. |
| `DepthRequests.DroppedShownExactlyWhen` | src/book/order_book.h:587-598 | A depth that shows orders that were dropped without a callback is right without them if and only if they are market orders. |
| `Prices.MatchesIsDownwardClosed` | src/book/comparable_price.h:38-77 | Whatever a key matches, every better key of its side matches. |
| `Prices.LessIsStrictTotalOrder` | src/book/comparable_price.h:115-119 | The order of keys of one side is a strict total order. |
| `Prices.MatchesIsSymmetric` | src/book/comparable_price.h:38-51 | A bid matches an ask's limit exactly when the ask matches the bid's. |
| `Prices.NotEqualNegatesEqualExactlyWhen` | src/book/comparable_price.h:78-90 | `operator!=` parses as a negation of the price alone; it is the negation of `operator==` if and only if a key of 0 is compared with 0 or 1, or another key with 0 or with itself. |
| `OrderBooks.OrderBook.constructor` | src/book/order_book.h:306-317 | A new book is empty and ready. |
| `OrderBooks.OrderBook.Add` | src/book/order_book.h:391-433 | The request as implemented does to book, callbacks, application orders and history exactly what `Handle` says, keeps the invariant, and returns whether anything matched. |
| `OrderBooks.OrderBook.Cancel` | src/book/order_book.h:435-471 | The same for a cancellation, of resting, held and unknown orders. |
| `OrderBooks.OrderBook.Replace` | src/book/order_book.h:473-545 | The same for a replacement: rejected, resized, emptied or resubmitted; the silent early return is never reached. What that is: `Answers.ReplaceAnswers`. |
| `OrderBooks.OrderBook.SetMarketPrice` | src/book/order_book.h:341-359 | The market price is set, and the stop orders it releases on the side it moves join the pending ones. What that is: `StopResults.PriceMovesOneSide` and `PriceReleases`. |
| `OrderBooks.OrderBook.CheckStopOrders` | src/book/order_book.h:569-585 | The released orders are a prefix of the held ones and join the pending list in order. |
| `OrderBooks.OrderBook.CreateTrade` | src/book/order_book.h:969-1017 | Trackers, market price, stop orders and callbacks after a trade; no trade without a price. |
| `OrderBooks.OrderBook.MatchRegularOrder` | src/book/order_book.h:720-790 | The loop over the nodes, erasing as it goes, computes the match of a regular order. |
| `OrderBooks.OrderBook.ProposeFills` | src/book/order_book.h:910-935 | First pass: the array of proposed fills, and their sum. |
| `OrderBooks.OrderBook.TryCreateDeferredTrades` | src/book/order_book.h:910-967 | Both passes, with or without prices; the nodes behind the current one are untouched. |
| `OrderBooks.OrderBook.MatchAonOrder` | src/book/order_book.h:792-905 | The loop for an all-or-none order computes its match, as long as no try falls short. |
| `OrderBooks.OrderBook.MatchOrder` | src/book/order_book.h:706-718 | The choice between the two. |
| `OrderBooks.OrderBook.CheckDeferredAons` | src/book/order_book.h:677-700 | The loop over the deferred orders, erasing the filled ones. |
| `OrderBooks.OrderBook.AddOrder` | src/book/order_book.h:636-675 | Match, rest what is left, re-check the deferred orders. What that is: `Rechecks.RestsAndRechecks`, `WaitingAons.AddOrderKeepsWaiting` and the rows on it above. |
| `OrderBooks.OrderBook.AddStopOrder` | src/book/order_book.h:547-567 | Holds a stop order exactly when there is a market price that has not reached its stop price, and says whether it did. What that is: `StopResults.HeldExactlyWhen`, `UnreachedStopIsHeld` and `ReachedStopIsMatched`. |
| `OrderBooks.OrderBook.SubmitPendingOrders` | src/book/order_book.h:587-598 | One round of the cascade. |
| `OrderBooks.OrderBook.HandlePendingOrders` | src/book/order_book.h:423-428 | Round after round until nothing is pending. |
| `OrderBooks.OrderBook.FindOnMarket` | src/book/order_book.h:608-631 | First node of the key, then along the equal keys. |
| `OrderBooks.OrderBook.CallbackNow` | src/book/order_book.h:1036-1085 | All callbacks are delivered in order, those appended while delivering included; a call made while a delivery is going on does nothing. |
| `OrderBooks.OrderBook.PerformCallback` | src/simple/simple_order_book.h:33-62 | What the simple order book does to the application orders. What that adds up to: `Results.OrderKeepsAccount` and `OrderStates.StateIsTold`. |
| `Results.AcceptTellsFirstMatch` | src/book/order_book.h:393-433 | A new order that is not held back: the first callback accepts it and carries exactly the sum of its fills in its own first match, and those fills follow at once. |
| `BookClasses.TrackerMap.Emplace` | src/book/order_book.h:663-670 | A new node goes behind all nodes with an equal key. |
| `SimpleOrders.SimpleOrderBook.UpdateOrders` | src/simple/simple_order_book.h:33-62 | The application's order objects, changed in place, one or two at a time, end up as the specification of the callback says of their values; no other object changes, and a fill of an order with itself counts twice. What that adds up to: `Results.OrderKeepsAccount` and `OrderStates.StateIsTold`. |
| `SimpleOrders.SimpleOrderBook.PerformCallback` | src/simple/simple_order_book.h:33-62 | The depth follows a callback first, reading the orders as they were, and then the objects change. |
| `SimpleOrders.SimpleOrderBook.PerformCallbacks` | src/simple/simple_order_book.h:33-62 | A list of callbacks is the fold over the map for the depth, and over the order values for the objects. |
| `SimpleOrders.SimpleOrderBook.FollowRequest` | src/simple/simple_order_book.h:33-62 | After the callbacks of a request the depth follows: the array depth shows the book; the object of every resting order, asked for its open quantity, answers what the book has of it; and every session of the feed that is connected and started for the symbol was last told the levels as they are. |
| `SimpleMarkets.SimpleMarket.Add` | src/simple/simple_order_book.h:33-62 | The engine handles the request in place, and what it delivers is handed on: afterwards the engine's state is the specified one, the depth shows its book, the order objects have its values, and every connected started session of the feed was last told the levels as they are. |
| `SimpleMarkets.SimpleMarket.Cancel` | src/simple/simple_order_book.h:33-62 | The same for a cancellation, without any condition on the depth. |
| `SimpleMarkets.SimpleMarket.Replace` | src/simple/simple_order_book.h:33-62 | The same for a replacement. |
| `CallbackQueues.DeliveredInOrder` | src/book/order_book.h:1036-1085 | However requests made by listeners and deliveries interleave, each callback is delivered once, in enqueue order; when delivery stops nothing is left. |
| `CallbackQueues.DeliveryProgresses` | src/book/order_book.h:1036-1085 | A delivery that is going on can always go on, and gets nearer to its end with every step without a new request. |
| `CallbackQueues.GuardClearsWhenEmpty` | src/book/order_book.h:1036-1085 | The guard is cleared only with everything delivered. |
| `Depths.Depth.AddOrder` | src/book/depth.h:222-238 | The array with its overflow does what the map from prices does: the order joins the level of its price, created in its place; only later-stamped slots differ. |
| `Depths.Depth.CloseOrder` | src/book/depth.h:276-292 | The order leaves its level; an emptied level goes, and the best hidden level becomes visible; it throws exactly when the level holds too little. |
| `Depths.Depth.ChangeQtyOrder` | src/book/depth.h:294-308 | Only the quantity of the level changes. |
| `Depths.Depth.FillOrder` | src/book/depth.h:257-274 | A fill to be ignored is counted off; any other closes or reduces. |
| `Depths.Depth.IgnoreFillQty` | src/book/depth.h:240-255 | It throws exactly when something is still to be ignored. |
| `Depths.Depth.ReplaceOrder` | src/book/depth.h:310-334 | A resize, or a move to another price. |
| `Depths.Depth.FindLevel` | src/book/depth.h:378-440 | The linear search and the overflow find the level of a price that has one. |
| `Depths.Depth.FindOrCreateLevel` | src/book/depth.h:378-440 | The level of a price, created at its place if there is none; every slot that changed is stamped. |
| `Depths.Depth.InsertLevelBefore` | src/book/depth.h:442-481 | Slots move down by one, the last level in use goes to the overflow, moved slots are stamped. |
| `Depths.Depth.EraseLevel` | src/book/depth.h:483-543 | Slots move up by one, the best hidden level comes back, moved slots are stamped. |
| `Depths.Depth.Published` | src/book/depth.h:568-573 | From then on changes are changes to what is shown now. |
| `DepthLevels.VisibleAreBest` | src/book/depth.h:378-543 | A level that is not visible is worse than every visible one, and exists only when every slot is in use. |
| `DepthLevels.VisibleShowsMap` | src/book/depth_level.h:90-197 | A visible slot shows what the map has at its price; a blank one shows nothing. |
| `DepthLevels.InsertedAll` | src/book/depth.h:442-481 | Shifting down with overflow is insertion into the list of all levels. |
| `DepthLevels.ErasedAll` | src/book/depth.h:483-543 | Shifting up with restoring is removal from the list of all levels. |
| `DepthBooks.DepthOrderBook.OnAccept` | src/book/depth_order_book.h:87-110 | A limit order joins the depth, or its fills are to be ignored when it was filled at once. |
| `DepthBooks.DepthOrderBook.OnFill` | src/book/depth_order_book.h:112-137 | Matched order first, then the inbound one. |
| `DepthBooks.DepthOrderBook.OnCancel` | src/book/depth_order_book.h:139-150 | The open quantity is closed. |
| `DepthBooks.DepthOrderBook.OnReplace` | src/book/depth_order_book.h:152-162 | The order is replaced at its level or moved. |
| `DepthBooks.DepthOrderBook.PerformCallback` | src/book/depth_order_book.h:87-162 | A callback the depth can follow does to the array what the fold does to the map; after a book update nothing is left that the sessions of the feed were not told. |
| `DepthBooks.DepthOrderBook.OnOrderBookChange` | src/book/depth_order_book.h:164-184 | When something visible changed, the listener is told before the change counts as published: each connected session of the feed gets one message, made of the levels as they are against what was last shown; only then is the new screen what counts as shown. The best-price flag covers every change of the first levels; whoever is not told has missed nothing. |
| `DepthBooks.DepthOrderBook.SessionWasTold` | src/book/depth_order_book.h:164-184 | With nothing left to publish, a connected session started for the symbol was last told the levels the depth has now. |
| `FeedWire.FullShows` | examples/depth_feed_publisher/depth_feed_publisher.cpp:77-137 | A full message, applied to any levels, gives the publisher's levels. |
| `FeedWire.IncrementalShows` | examples/depth_feed_publisher/depth_feed_publisher.cpp:77-137 | An incremental one, applied to what was last published, does too: every slot that differs is stamped later. |
| `FeedWire.ChangeKeepsSending` | examples/depth_feed_publisher/depth_feed_publisher.cpp:46-62 | A depth change keeps the channel right: every message takes a subscriber that has all the earlier ones to what was published when it was sent. |
| `FeedWire.TradeSendKeeps` | examples/depth_feed_publisher/depth_feed_connection.cpp:28-48 | So does a trade message. |
| `FeedWire.SendKeepsFollowing` | examples/depth_feed_publisher/depth_feed_connection.cpp:98-109 | Sending does not disturb a subscriber that is behind. |
| `FeedWire.DeliveryShows` | examples/depth_feed_publisher/depth_feed_subscriber.cpp:122-213 | Delivering the next message: it is in sequence, and afterwards the subscriber's levels for its symbol are what the publisher showed when it was sent. |
| `FeedWire.CaughtUpShowsPublished` | examples/depth_feed_publisher/depth_feed_subscriber.cpp:122-213 | With everything delivered, the subscriber shows what was last published, for every symbol of the session. |
| `FeedWire.NewSessionFollows` | examples/depth_feed_publisher/depth_feed_subscriber.cpp:24-28 | A new session is followed from the start, even by a subscriber with old levels. |
| `FeedRuns.NextKeepsOk` | examples/depth_feed_publisher/depth_feed_publisher.cpp:28-62 | Every step of the feed (a depth changes, a depth is published, a trade, a session comes or goes, a message is delivered) keeps it right: stamps and shown levels of every depth, every session, every subscriber. |
| `FeedRuns.RunKeepsOk` | examples/depth_feed_publisher/depth_feed_publisher.cpp:28-62 | So does any run of such steps, in any order. |
| `FeedRuns.DeliveredAsSent` | examples/depth_feed_publisher/depth_feed_subscriber.cpp:30-213 | In every run from the start: the next message of a session can be delivered, and when it is a depth message the subscriber's levels for the symbol are exactly what the depth showed when it was sent. |
| `FeedRuns.PublishTells` | examples/depth_feed_publisher/depth_feed_publisher.cpp:46-62 | A publication sends each connected session one message, with the levels as they are, and the others nothing. |
| `FeedRuns.CaughtUpShowsDepth` | examples/depth_feed_publisher/depth_feed_subscriber.cpp:122-213 | In every run from the start: a connected subscriber that has everything shows, for each symbol of its session, what was last published, and what the depth shows now if nothing changed since. |
| `Feed.DepthFeedSession.SendIncrUpdate` | examples/depth_feed_publisher/depth_feed_connection.cpp:50-71 | An incremental message goes out only on a session started for the symbol, with the next number. |
| `Feed.DepthFeedSession.SendFullUpdate` | examples/depth_feed_publisher/depth_feed_connection.cpp:73-96 | A full message goes out only to start the session for the symbol. |
| `Feed.DepthFeedConnection.SendRound` | examples/depth_feed_publisher/depth_feed_connection.cpp:205-264 | Every connected session that is due the message gets it once, the others nothing; disconnected ones are dropped while the list is walked; the result says whether all were due. |
| `Feed.DepthFeedPublisher.OnDepthChange` | examples/depth_feed_publisher/depth_feed_publisher.cpp:46-62 | Every connected session gets exactly one message: the changes, or everything when the symbol is new to it; sessions that had been told what the depth counts as shown have then been told what it shows. |
| `Feed.DepthFeedPublisher.OnTrade` | examples/depth_feed_publisher/depth_feed_publisher.cpp:28-44 | Every connected session gets the trade with its next number, and has still been told what is shown. |
| `Feed.DepthFeedConnection.OnAccept` | examples/depth_feed_publisher/depth_feed_connection.cpp:281-296 | A new session joins, connected, having been told nothing. |
| `Feed.DepthFeedPublisher.BuildLevels` | examples/depth_feed_publisher/depth_feed_publisher.cpp:77-137 | The message carries exactly the changed levels, or all, front to back. |
| `Feed.DepthFeedSubscriber.HandleMessage` | examples/depth_feed_publisher/depth_feed_subscriber.cpp:30-81 | A message out of sequence is refused and changes nothing; the next one overwrites the levels it carries. |
| `Feed.DepthFeedSubscriber.HandleReset` | examples/depth_feed_publisher/depth_feed_subscriber.cpp:24-28 | The next number expected is the first. |
| `IntText.NumberOfSymbolsIn` | examples/depth_feed_publisher/quickfix/FieldConvertors.h:51-84 | For every 32-bit number the exact length of its text, minus sign included. |
| `IntText.ElevenCells` | examples/depth_feed_publisher/quickfix/FieldConvertors.h:151-160 | Eleven cells are always enough. |
| `IntText.IntegerToString` | examples/depth_feed_publisher/quickfix/FieldConvertors.h:99-129 | Exactly the text of the number is written, at the end of the cells, and nothing else is touched. |
| `IntText.IntegerToStringPadded` | examples/depth_feed_publisher/quickfix/FieldConvertors.h:131-140 | The same with leading padding characters over all cells, zeros unless told otherwise. |
| `IntText.Parse` | examples/depth_feed_publisher/quickfix/FieldConvertors.h:163-193 | It succeeds exactly on an optional minus sign and digits, and gives their value modulo 2^32. |
| `IntText.PrintAndParse` | examples/depth_feed_publisher/quickfix/FieldConvertors.h:151-209 | Printing and parsing gives every 32-bit number back, the smallest included. |
| `IntText.TextIsNumeral` | examples/depth_feed_publisher/quickfix/FieldConvertors.h:99-129 | The printed text is a numeral and stands for the number. |
| `IntText.ConvertCheckSum` | examples/depth_feed_publisher/quickfix/FieldConvertors.h:212-224 | Three digits that stand for the value, exactly when it is 0 to 255. |
| `JulianDates.DateRoundTrip` | examples/depth_feed_publisher/quickfix/FieldTypes.h:512-533 | Every valid date comes back from its day number. |
| `JulianDates.DayRoundTrip` | examples/depth_feed_publisher/quickfix/FieldTypes.h:512-533 | Every day number from the first on comes back from its date, which is one of the calendar. |
| `JulianDates.OrderedAsDates` | examples/depth_feed_publisher/quickfix/FieldTypes.h:512-533 | Day numbers order dates as the calendar does, both ways. |
| `JulianDates.FitsInt` | examples/depth_feed_publisher/quickfix/FieldTypes.h:522-533 | No value computed on the way from a day number to its date leaves the 32-bit range, exactly up to day 536838867. |
| `JulianDates.JulianFitsInt` | examples/depth_feed_publisher/quickfix/FieldTypes.h:512-519 | Nor does any on the way back, for the dates of those days. |
| `Timestamps.TimeRoundTrip` | examples/depth_feed_publisher/quickfix/FieldTypes.h:229-236 | Taking a time apart and putting it together again truncates it to the precision. |
| `Timestamps.Convert` | examples/depth_feed_publisher/quickfix/FieldConvertors.h:434-465 | The buffer holds date, time and fraction, zero-padded, each in its place. |
| `Timestamps.ConvertFrom` | examples/depth_feed_publisher/quickfix/FieldConvertors.h:467-542 | The reader with all its checks. |
| `Timestamps.RoundTrip` | examples/depth_feed_publisher/quickfix/FieldConvertors.h:434-542 | Reading a printed timestamp gives the same day, and the time truncated to the printed precision, for precisions 0 to 9. |
| `Timestamps.PrintAndRead` | examples/depth_feed_publisher/quickfix/FieldConvertors.h:434-542 | The same for the two methods end to end. |
| `Fields.FieldBase.GetFixString` | examples/depth_feed_publisher/quickfix/Field.h:153-160 | The cached text is the encoding of the field as it is now. |
| `Fields.FieldBase.GetLength` | examples/depth_feed_publisher/quickfix/Field.h:162-167 | So is the cached length. |
| `Fields.FieldBase.GetTotal` | examples/depth_feed_publisher/quickfix/Field.h:169-174 | And the cached byte sum. |
| `Fields.FieldBase.SetString` | examples/depth_feed_publisher/quickfix/Field.h:131-136 | A new value empties the text and the metrics. |
| `Fields.FieldBase.Assign` | examples/depth_feed_publisher/quickfix/Field.h:101-109 | An assigned field takes tag, value and metrics along and forgets the text. |
| `Fields.FieldBase.EncodeTo` | examples/depth_feed_publisher/quickfix/Field.h:189-204 | Tag, equals sign, value and separator, each in its cells. |
| `Fields.ConcatReadsBack` | examples/depth_feed_publisher/quickfix/Field.h:189-204 | The text of a list of fields determines the list, as long as no value holds a separator. |
| `FieldMaps.CalculateString` | examples/depth_feed_publisher/quickfix/FieldMap.cpp:215-234 | The loop writes every field followed by the instances of its group, at every depth. |
| `FieldMaps.CalculateLength` | examples/depth_feed_publisher/quickfix/FieldMap.cpp:236-258 | The loops add up the fields, then all groups. |
| `FieldMaps.CalculateTotal` | examples/depth_feed_publisher/quickfix/FieldMap.cpp:260-276 | The same for the byte sums. |
| `FieldMaps.LengthOfText` | examples/depth_feed_publisher/quickfix/FieldMap.cpp:215-258 | For a whole map the length is the byte length of the text without its tags 8, 9 and 10. |
| `FieldMaps.TotalOfText` | examples/depth_feed_publisher/quickfix/FieldMap.cpp:215-276 | The total is the byte sum of the text without its tag 10. |
| `FieldMaps.LengthOfTextExactlyWhen` | examples/depth_feed_publisher/quickfix/FieldMap.cpp:215-258 | With one field and one group a tag, at every depth: the length of a map is that of its text without the three tags if and only if every group that has a length is written, under a field of its tag, at every depth. |
| `FieldMaps.TotalOfTextExactlyWhen` | examples/depth_feed_publisher/quickfix/FieldMap.cpp:215-276 | The same of the byte sum. |
| `FieldMaps.ListedWeighsExactlyWhen` | examples/depth_feed_publisher/quickfix/FieldMap.cpp:215-276 | The written fields never weigh more than what is added up, and as much exactly then. |
| `FieldMaps.RepeatedCountMismatch` | examples/depth_feed_publisher/quickfix/FieldMap.h:107-127 | A count field set a second time without overwriting: the group is written under both, and counted once. |
| `FieldMaps.UncountedGroupMismatch` | examples/depth_feed_publisher/quickfix/FieldMap.cpp:83-92 | A group added without its count field is in the length and not in the text. |
| `FieldMaps.BodyIsItsText` | examples/depth_feed_publisher/quickfix/FieldMap.cpp:215-276 | A map with none of these tags: exactly the length and byte sum of its text. |
| `FieldMaps.ListedWeighs` | examples/depth_feed_publisher/quickfix/FieldMap.cpp:215-276 | Adding up group by group, in tag order, counts every written field once and nothing else. |
| `FieldMaps.CountReadsBack` | examples/depth_feed_publisher/quickfix/FieldMap.cpp:83-92 | The count field reads back as the number of instances. |
| `FieldMapObjects.FieldMap.Lookup` | examples/depth_feed_publisher/quickfix/FieldMap.h:307-328 | Linear or binary search, the first field of the tag is found, or none. |
| `FieldMapObjects.FieldMap.FindPositionFor` | examples/depth_feed_publisher/quickfix/FieldMap.h:330-344 | The place behind all fields that do not come after the tag. |
| `FieldMapObjects.FieldMap.SetField` | examples/depth_feed_publisher/quickfix/FieldMap.h:107-127 | The field is replaced or inserted in order; without overwriting, a second one is added. |
| `FieldMapObjects.FieldMap.AddGroup` | examples/depth_feed_publisher/quickfix/FieldMap.cpp:83-92 | The instance joins its group and the count field is set. |
| `FieldMapObjects.FieldMap.RemoveInstance` | examples/depth_feed_publisher/quickfix/FieldMap.cpp:103-131 | The instance goes; the count is set anew, or goes with the group. |
| `FieldMapObjects.FieldMap.RemoveGroup` | examples/depth_feed_publisher/quickfix/FieldMap.cpp:133-150 | Group and count field go. |
| `FieldMapObjects.FieldMap.ReplaceGroup` | examples/depth_feed_publisher/quickfix/FieldMap.cpp:94-101 | One instance is replaced, if there is one of that number. |
| `FieldMapObjects.WithFieldSets` | examples/depth_feed_publisher/quickfix/FieldMap.h:107-127 | The tag has the new text, no other field changes, and the order is kept. |
| `FieldMapObjects.InsertedIsDistinctExactlyWhen` | examples/depth_feed_publisher/quickfix/FieldMap.h:107-127 | Setting without overwriting keeps one field a tag if and only if the tag had none. |
| `FieldMapObjects.AddedIsWhole` | examples/depth_feed_publisher/quickfix/FieldMap.cpp:83-92 | Adding a whole map as an instance keeps a map whole: at every depth, every count field is the number of instances. |
| `FieldMapObjects.WithoutInstanceIsWhole` | examples/depth_feed_publisher/quickfix/FieldMap.cpp:103-131 | So does removing an instance. |
| `FieldMapObjects.WithoutGroupIsWhole` | examples/depth_feed_publisher/quickfix/FieldMap.cpp:133-150 | So does removing a group. |
| `FieldMapObjects.WithReplacedIsWhole` | examples/depth_feed_publisher/quickfix/FieldMap.cpp:94-101 | So does replacing an instance by a whole map. |
| `FieldMapObjects.SetFieldKeepsWholeExactlyWhen` | examples/depth_feed_publisher/quickfix/FieldMap.h:107-127 | Setting a field keeps a map whole if and only if it is not the count of a group, or says the right number. |

## Left out

What a listed member's contract leaves open:

- OrderBooks.OrderBook.Add: the engine's application orders are values in a map from identities, a field of the book, so an order changed through a second pointer is not captured; `SimpleOrders` has the objects, and is proved to change them as the map changes. Trackers are passed in and returned instead of changed through a reference.
- OrderBooks.OrderBook.CallbackNow: the listener is the simple order book, which makes no requests and throws nothing; requests from inside a listener are in `CallbackQueues`. A throwing listener would also skip the order update of that callback.
- OrderBooks.OrderBook.MatchAonOrder: not for a match in which a try falls short (`AllOrNone.TryFallsShortExactlyWhen`), which takes an order without any price. The source has no defined behaviour from there on when that try has filled deferred orders: their nodes are erased, and the iterators stay in `deferred_matches` and are used by the next try (order_book.h:858-905, 936-964). `Matching.MatchAon` skips an order that is gone.
- AllOrNone.MatchAonRuns: for the same matches. Whether the rest of such a match completes the order is not stated, as the source does not say.
- AonPairs.AonWithOneExactlyWhen: for one all-or-none order among regular ones. With more of them it depends on which were deferred before which (`CombinationIsMissed`); `WaitingAons.AonTakesRegular` and `AonPairs.EqualIsEnough` hold for any number.
- WaitResults.RestingAonNotFillable: counts regular orders only; for the reason above nothing is said of combinations of all-or-none orders.
- Answers.MatchedExactlyWhen: with stop orders waiting to be submitted the fills of the cascade are in the request too, and the result, as in the source, tells of the order's own submission only (`Answers.AddedMatched`).
- RequestInvariants.HandleKeepsInv: not for an order object added twice: the source then has two trackers for one object, which nothing in it is made for. While no market price is known, a held stop order without a limit counts as facing an all-or-none market order, although it joins the book only after a first trade.
- OrderBooks.OrderBook.SetMarketPrice: called from outside, it leaves released stop orders pending until the next request, as in the source; price 0, which means that there is none, is excluded by `RequestRuns.Proper`.
- LimitResults.RequestWithinLimits: for replacements that change a price there are `RequestFairlyPriced`, without exception, and `MoveLimits.MoveWithinLimitsExactlyWhen`; while the order is matched again the application order still has its old price, and the source takes its trade prices from there.
- MoveLimits.MoveWithinLimitsExactlyWhen: for regular orders facing regular ones, with no stop order held or pending; `RequestFairlyPriced` covers the others in one direction.
- UncrossedResults.UncrossedExactlyWhen: the converse is for replaced orders whose other side has no all-or-none order, as one may still be filled by the rest.
- DepthResults.DepthShowsBook: for runs of requests that `DepthResults.KeepsDepth` admits: no limit immediate-or-cancel remainder beside another order at its price, none dropped in a cascade, and replacements the depth can follow. `RequestFollowedExactlyWhen` and the two lemmas below are the exact conditions of the parts; a request that is wrong in two ways could still come out right.
- DepthReplace.ReplaceFollowedExactlyWhen: of the replace callback alone. When the replacement leaves nothing open, the cancel callback that follows it may set a level right again. A limit order replaced to price 0 is excluded, as `replace` never does that.
- DepthIoc.RemainderFollowedExactlyWhen: of the callbacks up to the order's own cancellation; the cascade after them is in `DepthResults.RequestFollowedExactlyWhen`.
- Depths.Depth.FindLevel: needs the price to be there. For an absent price the source returns the place behind the array; `DepthResults` proves that no caller gets there.
- Depths.Depth.CloseOrder: after the exception of a level that holds too little nothing is said about the depth.
- DepthBooks.DepthOrderBook.OnOrderBookChange: the listener is the publisher of the feed; a book without a listener is one whose feed has no sessions. The best-price listener is a flag. The publisher writes to the sockets before the call returns.
- FeedRuns.DeliveredAsSent: the depths are values here, and a change is any change that stamps the slots it changes, which the methods of `Depths.Depth` are proved to do.
- Feed.DepthFeedConnection.SendRound: one method for the three loops over the sessions (trades, incremental, full), which differ in what a session does with the message.
- Feed.DepthFeedSubscriber.HandleMessage: the message is already decoded and its levels are numbered within the depth; the errors for missing fields are not modelled.
- FieldMaps.CalculateString: nested maps are values: a group holds copies, as `addGroup` makes them. Changing an instance through the reference that `getGroupRef` hands out is not captured, nor is a pointer given to `addGroupPtr` and used afterwards.
- FieldMapObjects.AddedIsWhole: for groups added with their count, the default; what happens without it is `FieldMaps.LengthOfTextExactlyWhen`.
- FieldMaps.LengthOfTextExactlyWhen: for maps with one field a tag. With more the text can be the longer one (`FieldMaps.RepeatedCountMismatch`), and the two differences can make up for each other.
- Timestamps.RoundTrip: years 0 to 9999 and times within one day, as the printed format has room for.
- IntText.Parse: a number that does not fit wraps modulo 2^32, which the source leaves to the compiler.

What is not modelled at all:

- 32-bit wrap-around of quantities, costs, change numbers and sequence numbers, and the widths the callbacks store.
- The standard library's multimap, vector and algorithms: a sequence in order, inserted behind equal keys, searched for the first equal key; iterators are places or identities.
- QuickFAST encoding, sockets, buffers and the time at which a disconnect is noticed; the channel delivers in order or the session ends.
- Loggers, log output, the deprecated `move_callbacks` and `perform_callbacks`, `needs_bid_restoration`, `needs_ask_restoration`, `reserve`, the trade listeners of the order book.
- `DateTime` setters, `operator+=`, comparison with the clock, day numbers before -32044, and the time-only and date-only conversions.
- The private constructor that takes a field's metrics from the text it was parsed from, `sortFields` and `appendField`, which only message parsing uses; `message_order`, whose header is not part of this model, is any strict total order of tags.
- `DoubleConvertor`, and the rest of QuickFIX: acceptor, initiator, stores, dictionaries, field tables.
- `exchange_quickfix`, `mt_order_entry` and the other example programs.
