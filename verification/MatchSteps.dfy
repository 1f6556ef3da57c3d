/** The matching functions one loop iteration at a time, for the loops that compute them. */
module MatchSteps {
  import opened Prices
  import opened Orders
  import opened Books
  import opened Matching
  import opened Faces
  import opened AllOrNone
  import opened Accounting
  import opened BookRuns
  import opened Cascade

  /** What is behind a loop, and what the rest of it will do, make up the whole match. */
  ghost predicate Continues(m: Match, deferred: seq<OrderId>, fills: seq<Callback>, matched: bool, rest: Match) {
    m == Match(rest.inbound, rest.side, rest.stops, deferred + rest.deferred, fills + rest.fills, matched ||
               rest.matched)
  }

  lemma PassingContinues(m: Match, deferred: seq<OrderId>, fills: seq<Callback>, matched: bool, id: OrderId,
                         rest: Match)
    requires Continues(m, deferred, fills, matched, rest.Passing(id))
    ensures Continues(m, deferred + [id], fills, matched, rest)
  {
    assert deferred + ([id] + rest.deferred) == deferred + [id] + rest.deferred;
  }

  lemma AfterContinues(m: Match, deferred: seq<OrderId>, fills: seq<Callback>, matched: bool, fills': seq<Callback>,
                       matched': bool, rest: Match)
    requires Continues(m, deferred, fills, matched, rest.After(fills', matched'))
    ensures Continues(m, deferred, fills + fills', matched || matched', rest)
  {
    assert fills + (fills' + rest.fills) == fills + fills' + rest.fills;
  }

  /** Passing a node moves the cut between what is behind and what is ahead. */
  lemma PassNode(nodes: seq<Entry>, k: nat)
    requires k < |nodes|
    ensures nodes[k..] == [nodes[k]] + nodes[k + 1..] && nodes[..k + 1] == nodes[..k] + [nodes[k]]
    ensures nodes[k..][0] == nodes[k] && nodes[k..][1..] == nodes[k + 1..]
  {
  }

  /** Two cuts with the same nodes ahead of them. */
  lemma RejoinNodes(nodes: seq<Entry>, cut: nat, nodes': seq<Entry>, cut': nat)
    requires cut <= |nodes| && cut' < |nodes'| && nodes[cut..] == nodes'[cut'..]
    ensures cut < |nodes| && nodes[cut] == nodes'[cut'] && nodes[cut + 1..] == nodes'[cut' + 1..]
    ensures nodes[..cut] == nodes'[..cut'] ==> nodes == nodes' && cut == cut'
  {
    assert nodes[cut..][0] == nodes'[cut'..][0];
    assert nodes[cut + 1..] == nodes[cut..][1..] && nodes'[cut' + 1..] == nodes'[cut'..][1..];
    if nodes[..cut] == nodes'[..cut'] {
      assert |nodes[..cut]| == cut && |nodes'[..cut']| == cut';
      assert nodes == nodes[..cut] + nodes[cut..] && nodes' == nodes'[..cut'] + nodes'[cut'..];
    }
  }

  lemma Regrouped<T>(a: seq<T>, b: seq<T>, c: seq<T>)
    ensures a + b + c == a + (b + c) && a + [] == a
  {
  }

  lemma ReplaceNode(nodes: seq<Entry>, k: nat, e: Entry)
    requires k < |nodes|
    ensures nodes[k := e] == nodes[..k] + [e] + nodes[k + 1..]
  {
  }

  lemma OpenTail(nodes: seq<Entry>, k: nat)
    requires k < |nodes| && AllOpen(nodes[k..])
    ensures nodes[k].tracker.openQty > 0 && AllOpen(nodes[k + 1..])
  {
    PassNode(nodes, k);
    var here, next := nodes[k..], nodes[k + 1..];
    forall j | 0 <= j < |next|
      ensures next[j].tracker.openQty > 0
    {
      assert here[j + 1].tracker.openQty > 0;
    }
  }

  /** So does settling it: the cut stays where it is when the node goes. */
  lemma SettleNode(nodes: seq<Entry>, k: nat, t: Tracker)
    requires k < |nodes|
    ensures var k' := if t.openQty == 0 then k else k + 1;
            && k' <= |Settle(nodes, k, t)|
            && Settle(nodes, k, t)[..k'] == Past(nodes[..k], nodes[k], t) && Settle(nodes, k, t)[k'..] == nodes[k + 1..]
  {
  }

  /** Settling a node behind the cut. */
  lemma SettleBehind(nodes: seq<Entry>, cut: nat, k: nat, t: Tracker)
    requires k < cut <= |nodes|
    ensures var cut' := if t.openQty == 0 then cut - 1 else cut;
            && |Settle(nodes, k, t)| == |nodes| - (cut - cut')
            && Settle(nodes, k, t)[..cut'] == Settle(nodes[..cut], k, t) && Settle(nodes, k, t)[cut'..] == nodes[cut..]
  {
  }

  // ---- Matching a regular order ----

  /** The match from node `pos` on. */
  function RegularFrom(env: OrderMap, inbound: Tracker, price: nat, nodes: seq<Entry>, pos: nat, sb: StopBook): Match
    requires pos <= |nodes|
  {
    MatchRegular(env, inbound, price, nodes[..pos], nodes[pos..], sb)
  }

  predicate Ongoing(inbound: Tracker, price: nat, nodes: seq<Entry>, pos: nat) {
    pos < |nodes| && inbound.openQty != 0 && nodes[pos].key.Matches(price)
  }

  lemma RegularStart(env: OrderMap, inbound: Tracker, price: nat, nodes: seq<Entry>, sb: StopBook)
    ensures var m := MatchRegular(env, inbound, price, [], nodes, sb);
            Continues(m, [], [], false, RegularFrom(env, inbound, price, nodes, 0, sb))
  {
    assert nodes[..0] == [] && nodes[0..] == nodes;
  }

  lemma RegularPass(m: Match, deferred: seq<OrderId>, fills: seq<Callback>, matched: bool, env: OrderMap,
                    inbound: Tracker, price: nat, nodes: seq<Entry>, pos: nat, sb: StopBook)
    requires Ongoing(inbound, price, nodes, pos) && nodes[pos].tracker.aon
    requires inbound.openQty < nodes[pos].tracker.openQty
    requires Continues(m, deferred, fills, matched, RegularFrom(env, inbound, price, nodes, pos, sb))
    ensures Continues(m, deferred + [nodes[pos].tracker.ptr], fills, matched,
                      RegularFrom(env, inbound, price, nodes, pos + 1, sb))
  {
    PassNode(nodes, pos);
    PassingContinues(m, deferred, fills, matched, nodes[pos].tracker.ptr,
                     RegularFrom(env, inbound, price, nodes, pos + 1, sb));
  }

  lemma RegularTrade(m: Match, deferred: seq<OrderId>, fills: seq<Callback>, matched: bool, env: OrderMap,
                     inbound: Tracker, price: nat, nodes: seq<Entry>, pos: nat, sb: StopBook)
    requires Ongoing(inbound, price, nodes, pos)
    requires !(nodes[pos].tracker.aon && inbound.openQty < nodes[pos].tracker.openQty)
    requires Continues(m, deferred, fills, matched, RegularFrom(env, inbound, price, nodes, pos, sb))
    ensures var t := CreateTrade(env, inbound, nodes[pos].tracker, inbound.openQty, sb);
            Continues(m, deferred, fills + t.fills, matched || t.qty > 0,
                      RegularFrom(env, t.inbound, price, Settle(nodes, pos, t.current), if t.current.openQty == 0 then
                                  pos else pos + 1, t.stops))
  {
    var t := CreateTrade(env, inbound, nodes[pos].tracker, inbound.openQty, sb);
    PassNode(nodes, pos);
    SettleNode(nodes, pos, t.current);
    AfterContinues(m, deferred, fills, matched, t.fills, t.qty > 0,
                   RegularFrom(env, t.inbound, price, Settle(nodes, pos, t.current), if t.current.openQty == 0 then pos
                               else pos + 1, t.stops));
  }

  lemma RegularEnd(m: Match, deferred: seq<OrderId>, fills: seq<Callback>, matched: bool, env: OrderMap,
                   inbound: Tracker, price: nat, nodes: seq<Entry>, pos: nat, sb: StopBook)
    requires pos <= |nodes| && !Ongoing(inbound, price, nodes, pos)
    requires Continues(m, deferred, fills, matched, RegularFrom(env, inbound, price, nodes, pos, sb))
    ensures m == Match(inbound, nodes, sb, deferred, fills, matched)
  {
    assert nodes[..pos] + nodes[pos..] == nodes;
    assert deferred + [] == deferred && fills + [] == fills;
  }

  // ---- The two passes over deferred orders ----

  /** What the first pass writes down for each deferred order. */
  function Plan(ids: seq<OrderId>, side: seq<Entry>, left: nat): (plan: seq<nat>)
    ensures |plan| == |ids|
  {
    if ids == [] then []
    else
      var k := IndexOf(side, ids[0]);
      var q := if k < |side| then Share(side[k].tracker, left) else 0;
      [q] + Plan(ids[1..], side, left - q)
  }

  lemma {:induction false} PlanOfNothing(ids: seq<OrderId>, side: seq<Entry>)
    ensures forall j :: 0 <= j < |ids| ==> Plan(ids, side, 0)[j] == 0
  {
    if ids != [] {
      PlanOfNothing(ids[1..], side);
      var k := IndexOf(side, ids[0]);
      assert k < |side| ==> Share(side[k].tracker, 0) == 0;
    }
  }

  lemma PlanNext(ids: seq<OrderId>, side: seq<Entry>, left: nat)
    requires ids != [] && IndexOf(side, ids[0]) < |side|
    ensures var q := Share(side[IndexOf(side, ids[0])].tracker, left);
            Plan(ids, side, left) == [q] + Plan(ids[1..], side, left - q)
  {
  }

  lemma {:induction false} PlanAfterSettling(ids: seq<OrderId>, side: seq<Entry>, k: nat, t: Tracker, left: nat,
                                             price: nat)
    requires k < |side| && Distinct(side) && t.ptr == side[k].tracker.ptr && t.ptr !in ids
    requires Held(ids, side, price)
    ensures Plan(ids, Settle(side, k, t), left) == Plan(ids, side, left)
    decreases |ids|
  {
    if ids == [] {
      return;
    }
    hide Settle, Share, IndexOf, Distinct, Plan;
    assert Crossing(side, ids[0], price);
    SettleKeepsOthers(side, k, t, ids[0]);
    PlanNext(ids, side, left);
    PlanNext(ids, Settle(side, k, t), left);
    var q := Share(side[IndexOf(side, ids[0])].tracker, left);
    HeldTail(ids, side, price);
    PlanAfterSettling(ids[1..], side, k, t, left - q, price);
  }

  /** A trade of nothing changes nothing. */
  lemma EmptyTrade(env: OrderMap, inbound: Tracker, side: seq<Entry>, k: nat, sb: StopBook)
    requires k < |side| && side[k].tracker.openQty > 0
    ensures var t := CreateTrade(env, inbound, side[k].tracker, 0, sb);
            t == Trade(inbound, side[k].tracker, sb, 0, []) && Settle(side, k, t.current) == side
  {
  }

  /** When nothing more is planned, nothing more is traded. */
  lemma {:induction false} NoPlanNoTrade(env: OrderMap, inbound: Tracker, ids: seq<OrderId>, side: seq<Entry>,
                                         left: nat, sb: StopBook)
    requires PlanQty(ids, side, left) == 0 && AllOpen(side)
    ensures ExecPlan(env, inbound, ids, side, left, sb) == Deferred(inbound, side, sb, 0, [])
    decreases |ids|
  {
    hide Settle, Matching.CreateTrade;
    if ids != [] && left != 0 {
      var k := IndexOf(side, ids[0]);
      if k < |side| {
        assert Share(side[k].tracker, left) == 0;
        assert side[k].tracker.openQty > 0;
        EmptyTrade(env, inbound, side, k, sb);
      }
      NoPlanNoTrade(env, inbound, ids[1..], side, left, sb);
    }
  }

  lemma PlanHead(ids: seq<OrderId>, side: seq<Entry>, left: nat)
    requires ids != [] && left > 0 && IndexOf(side, ids[0]) < |side|
    ensures var q := Share(side[IndexOf(side, ids[0])].tracker, left);
            && Plan(ids, side, left) == [q] + Plan(ids[1..], side, left - q)
            && PlanQty(ids, side, left) == q + PlanQty(ids[1..], side, left - q)
  {
  }

  /** What the first pass has written down after some of the orders, and found in all. */
  ghost predicate Proposed(ids: seq<OrderId>, side: seq<Entry>, maxQty: nat, index: nat, fills: seq<nat>,
                           foundQty: nat) {
    && index <= |ids| == |fills| && foundQty <= maxQty
    && Plan(ids, side, maxQty)[index..] == Plan(ids[index..], side, maxQty - foundQty)
    && foundQty + PlanQty(ids[index..], side, maxQty - foundQty) == PlanQty(ids, side, maxQty)
    && Written(fills, Plan(ids, side, maxQty), index)
  }

  /** The first quantities are written down, the others are still zero. */
  ghost predicate Written(fills: seq<nat>, plan: seq<nat>, index: nat) {
    && |fills| == |plan|
    && (forall j :: 0 <= j < index && j < |fills| ==> fills[j] == plan[j])
    && (forall j :: index <= j < |fills| ==> fills[j] == 0)
  }

  lemma WriteNext(fills: seq<nat>, plan: seq<nat>, index: nat, q: nat)
    requires Written(fills, plan, index) && index < |plan| && q == plan[index]
    ensures Written(fills[index := q], plan, index + 1)
  {
  }

  lemma ProposedStart(ids: seq<OrderId>, side: seq<Entry>, maxQty: nat, fills: seq<nat>)
    requires |fills| == |ids| && forall j :: 0 <= j < |fills| ==> fills[j] == 0
    ensures Proposed(ids, side, maxQty, 0, fills, 0)
  {
    assert ids[0..] == ids;
  }

  lemma PlanAt(plan: seq<nat>, ids: seq<OrderId>, index: nat, side: seq<Entry>, left: nat, q: nat, left': nat)
    requires index < |ids| == |plan| && IndexOf(side, ids[index]) < |side| && 0 < left == q + left'
    requires q == Share(side[IndexOf(side, ids[index])].tracker, left)
    requires plan[index..] == Plan(ids[index..], side, left)
    ensures plan[index] == q && plan[index + 1..] == Plan(ids[index + 1..], side, left')
    ensures PlanQty(ids[index..], side, left) == q + PlanQty(ids[index + 1..], side, left')
  {
    assert ids[index..][0] == ids[index] && ids[index..][1..] == ids[index + 1..];
    PlanHead(ids[index..], side, left);
    assert plan[index..][0] == plan[index] && plan[index..][1..] == plan[index + 1..];
  }

  lemma ProposedStep(ids: seq<OrderId>, side: seq<Entry>, maxQty: nat, index: nat, fills: seq<nat>, foundQty: nat,
                     q: nat)
    requires Proposed(ids, side, maxQty, index, fills, foundQty) && index < |ids| && foundQty < maxQty
    requires IndexOf(side, ids[index]) < |side|
    requires q == Share(side[IndexOf(side, ids[index])].tracker, maxQty - foundQty) <= maxQty - foundQty
    ensures Proposed(ids, side, maxQty, index + 1, fills[index := q], foundQty + q)
  {
    hide Plan, PlanQty, Written, IndexOf, Share, Proposed;
    var plan := Plan(ids, side, maxQty);
    var rest, rest' := Plan(ids[index..], side, maxQty - foundQty),
        Plan(ids[index + 1..], side, maxQty - (foundQty + q));
    ProposedParts(ids, side, maxQty, index, fills, foundQty, plan, rest);
    PlanAt(plan, ids, index, side, maxQty - foundQty, q, maxQty - (foundQty + q));
    WriteNext(fills, plan, index, q);
    IsProposed(ids, side, maxQty, index + 1, fills[index := q], foundQty + q, plan, rest');
  }

  lemma ProposedParts(ids: seq<OrderId>, side: seq<Entry>, maxQty: nat, index: nat, fills: seq<nat>, foundQty: nat,
                      plan: seq<nat>, rest: seq<nat>)
    requires Proposed(ids, side, maxQty, index, fills, foundQty)
    requires plan == Plan(ids, side, maxQty) && rest == Plan(ids[index..], side, maxQty - foundQty)
    ensures index <= |ids| == |fills| == |plan| && foundQty <= maxQty
    ensures plan[index..] == rest && Written(fills, plan, index)
    ensures foundQty + PlanQty(ids[index..], side, maxQty - foundQty) == PlanQty(ids, side, maxQty)
  {
    hide Plan, PlanQty;
  }

  lemma IsProposed(ids: seq<OrderId>, side: seq<Entry>, maxQty: nat, index: nat, fills: seq<nat>, foundQty: nat,
                   plan: seq<nat>, rest: seq<nat>)
    requires index <= |ids| == |fills| == |plan| && foundQty <= maxQty
    requires plan == Plan(ids, side, maxQty) && rest == Plan(ids[index..], side, maxQty - foundQty)
    requires plan[index..] == rest && Written(fills, plan, index)
    requires foundQty + PlanQty(ids[index..], side, maxQty - foundQty) == PlanQty(ids, side, maxQty)
    ensures Proposed(ids, side, maxQty, index, fills, foundQty)
  {
    hide Plan, PlanQty, Written;
  }

  lemma ProposedEnd(ids: seq<OrderId>, side: seq<Entry>, maxQty: nat, index: nat, fills: seq<nat>, foundQty: nat)
    requires Proposed(ids, side, maxQty, index, fills, foundQty) && (index == |ids| || foundQty == maxQty)
    ensures fills == Plan(ids, side, maxQty) && foundQty == PlanQty(ids, side, maxQty)
  {
    var plan := Plan(ids, side, maxQty);
    if foundQty == maxQty {
      PlanOfNothing(ids[index..], side);
      assert forall j :: index <= j < |plan| ==> plan[j] == plan[index..][j - index];
    }
  }

  /** What the second pass holds on to between two trades. */
  ghost predicate CanTrade(env: OrderMap, inbound: Tracker, ids: seq<OrderId>, nodes: seq<Entry>, cut: nat, left: nat,
                           sb: StopBook, price: nat) {
    cut <= |nodes| && Clean(nodes[..cut]) && Held(ids, nodes[..cut], price) && left <= inbound.openQty
  }

  lemma HeadIsBehind(env: OrderMap, inbound: Tracker, ids: seq<OrderId>, nodes: seq<Entry>, cut: nat, left: nat,
                     sb: StopBook, price: nat)
    requires CanTrade(env, inbound, ids, nodes, cut, left, sb, price) && ids != []
    ensures var k := IndexOf(nodes, ids[0]);
            k < cut && k == IndexOf(nodes[..cut], ids[0]) && nodes[k] == nodes[..cut][k]
  {
    assert Crossing(nodes[..cut], ids[0], price);
    IndexOfAppend(nodes[..cut], nodes[cut..], ids[0]);
    assert nodes[..cut] + nodes[cut..] == nodes;
  }

  /** Trading with one deferred order, or not for want of a price, leaves the plan for the others. */
  lemma DeferredTrade(env: OrderMap, inbound: Tracker, ids: seq<OrderId>, side: seq<Entry>, left: nat, sb: StopBook,
                      price: nat, k: nat, q: nat, t: Trade)
    requires Clean(side) && Held(ids, side, price) && left <= inbound.openQty
    requires ids != [] && left > 0 && k == IndexOf(side, ids[0]) < |side| && q == Share(side[k].tracker, left)
    requires t == CreateTrade(env, inbound, side[k].tracker, q, sb)
    ensures t.qty <= q && left - q <= t.inbound.openQty
    ensures Clean(Settle(side, k, t.current)) && Held(ids[1..], Settle(side, k, t.current), price)
    ensures Plan(ids[1..], Settle(side, k, t.current), left - q) == Plan(ids[1..], side, left - q)
    ensures PlanQty(ids[1..], Settle(side, k, t.current), left - q) == PlanQty(ids[1..], side, left - q)
  {
    hide Settle, Plan, PlanQty;
    SettleKeepsNodes(side, k, t.current);
    HeldTail(ids, side, price);
    PlanIgnoresOthers(ids[1..], side, k, t.current, left - q, price);
    PlanAfterSettling(ids[1..], side, k, t.current, left - q, price);
  }

  lemma ExecHead(env: OrderMap, inbound: Tracker, ids: seq<OrderId>, side: seq<Entry>, left: nat, sb: StopBook, k: nat,
                 q: nat, t: Trade)
    requires ids != [] && left > 0 && k == IndexOf(side, ids[0]) < |side| && q == Share(side[k].tracker, left)
    requires t == CreateTrade(env, inbound, side[k].tracker, q, sb)
    ensures var r := ExecPlan(env, t.inbound, ids[1..], Settle(side, k, t.current), left - q, t.stops);
            ExecPlan(env, inbound, ids, side, left, sb) == r.(traded := t.qty + r.traded, fills := t.fills + r.fills)
  {
    hide Settle, Matching.CreateTrade;
  }

  /** One trade of the second pass, against the nodes behind the cut. */
  lemma DeferredStep(env: OrderMap, inbound: Tracker, ids: seq<OrderId>, nodes: seq<Entry>, cut: nat, left: nat,
                     sb: StopBook, price: nat, q: nat, t: Trade)
    requires CanTrade(env, inbound, ids, nodes, cut, left, sb, price) && ids != [] && left > 0
    requires q == Plan(ids, nodes[..cut], left)[0]
    requires var k := IndexOf(nodes, ids[0]);
             k < |nodes| ==> t == CreateTrade(env, inbound, nodes[k].tracker, q, sb)
    ensures var k := IndexOf(nodes, ids[0]);
            var cut' := if t.current.openQty == 0 then cut - 1 else cut;
            && k < cut
            && var nodes' := Settle(nodes, k, t.current);
            && cut' <= |nodes'| && nodes'[cut'..] == nodes[cut..]
            && t.qty <= q <= left
            && CanTrade(env, t.inbound, ids[1..], nodes', cut', left - q, t.stops, price)
            && Plan(ids[1..], nodes'[..cut'], left - q) == Plan(ids, nodes[..cut], left)[1..]
            && PlanQty(ids, nodes[..cut], left) == q + PlanQty(ids[1..], nodes'[..cut'], left - q)
            && var r := ExecPlan(env, t.inbound, ids[1..], nodes'[..cut'], left - q, t.stops);
               ExecPlan(env, inbound, ids, nodes[..cut], left, sb)
                   == r.(traded := t.qty + r.traded, fills := t.fills + r.fills)
  {
    hide Settle, Matching.CreateTrade, ExecPlan, Plan, PlanQty, Clean;
    var side := nodes[..cut];
    HeadIsBehind(env, inbound, ids, nodes, cut, left, sb, price);
    var k := IndexOf(nodes, ids[0]);
    PlanHead(ids, side, left);
    assert Crossing(side, ids[0], price);
    DeferredTrade(env, inbound, ids, side, left, sb, price, k, q, t);
    ExecHead(env, inbound, ids, side, left, sb, k, q, t);
    SettleBehind(nodes, cut, k, t.current);
  }

  /** Once nothing more is planned, an order that is still visited gives nothing. */
  lemma SpentStep(env: OrderMap, inbound: Tracker, ids: seq<OrderId>, nodes: seq<Entry>, cut: nat, sb: StopBook,
                  price: nat, q: nat, t: Trade)
    requires CanTrade(env, inbound, ids, nodes, cut, 0, sb, price) && ids != []
    requires q == Plan(ids, nodes[..cut], 0)[0]
    requires var k := IndexOf(nodes, ids[0]);
             k < |nodes| ==> t == CreateTrade(env, inbound, nodes[k].tracker, q, sb)
    ensures var k := IndexOf(nodes, ids[0]);
            && k < cut && q == 0 && t == Trade(inbound, nodes[k].tracker, sb, 0, []) && t.current.openQty > 0
            && Settle(nodes, k, t.current) == nodes
            && CanTrade(env, inbound, ids[1..], nodes, cut, 0, sb, price)
            && Plan(ids[1..], nodes[..cut], 0) == Plan(ids, nodes[..cut], 0)[1..]
            && PlanQty(ids[1..], nodes[..cut], 0) == 0
            && ExecPlan(env, inbound, ids[1..], nodes[..cut], 0, sb) == ExecPlan(env, inbound, ids, nodes[..cut], 0, sb)
  {
    HeadIsBehind(env, inbound, ids, nodes, cut, 0, sb, price);
    PlanOfNothing(ids, nodes[..cut]);
    PlanOfNothing(ids[1..], nodes[..cut]);
    HeldTail(ids, nodes[..cut], price);
  }

  /** What the second pass has done, and what it has yet to do, make up the whole of it. */
  ghost predicate Remains(d: Deferred, traded: nat, fills: seq<Callback>, rest: Deferred) {
    d == rest.(traded := traded + rest.traded, fills := fills + rest.fills)
  }

  lemma RemainsStart(d: Deferred)
    ensures Remains(d, 0, [], d)
  {
  }

  lemma RemainsStep(d: Deferred, traded: nat, fills: seq<Callback>, t: Trade, rest: Deferred)
    requires Remains(d, traded, fills, rest.(traded := t.qty + rest.traded, fills := t.fills + rest.fills))
    ensures Remains(d, traded + t.qty, fills + t.fills, rest)
  {
    assert fills + (t.fills + rest.fills) == fills + t.fills + rest.fills;
  }

  /** The second pass between two trades: what it can still do, and what it has done. */
  ghost predicate SecondPass(env: OrderMap, inbound: Tracker, ids: seq<OrderId>, index: nat, plan: seq<nat>,
                             nodes: seq<Entry>, cut: nat, left: nat, sb: StopBook, price: nat,
                             d: Deferred, traded: nat, fills: seq<Callback>, foundQty: nat) {
    && index <= |ids| && CanTrade(env, inbound, ids[index..], nodes, cut, left, sb, price)
    && index <= |plan| && plan[index..] == Plan(ids[index..], nodes[..cut], left)
    && traded + PlanQty(ids[index..], nodes[..cut], left) <= foundQty
    && Remains(d, traded, fills, ExecPlan(env, inbound, ids[index..], nodes[..cut], left, sb))
  }

  lemma SecondPassStarts(env: OrderMap, inbound: Tracker, ids: seq<OrderId>, plan: seq<nat>, nodes: seq<Entry>,
                         cut: nat, left: nat, sb: StopBook, price: nat)
    requires CanTrade(env, inbound, ids, nodes, cut, left, sb, price) && plan == Plan(ids, nodes[..cut], left)
    ensures SecondPass(env, inbound, ids, 0, plan, nodes, cut, left, sb, price,
                       ExecPlan(env, inbound, ids, nodes[..cut], left, sb), 0, [], PlanQty(ids, nodes[..cut], left))
  {
    assert ids[0..] == ids && plan[0..] == plan;
    RemainsStart(ExecPlan(env, inbound, ids, nodes[..cut], left, sb));
  }

  lemma SecondPassSteps(env: OrderMap, inbound: Tracker, ids: seq<OrderId>, index: nat, plan: seq<nat>,
                        nodes: seq<Entry>, cut: nat, left: nat, sb: StopBook, price: nat,
                        d: Deferred, traded: nat, fills: seq<Callback>, foundQty: nat, k: nat, t: Trade)
    requires SecondPass(env, inbound, ids, index, plan, nodes, cut, left, sb, price, d, traded, fills, foundQty)
    requires index < |ids| == |plan| && k == IndexOf(nodes, ids[index]) < |nodes|
    requires t == CreateTrade(env, inbound, nodes[k].tracker, plan[index], sb)
    ensures var cut' := if t.current.openQty == 0 then cut - 1 else cut;
            && k < cut && plan[index] <= left && cut' <= |Settle(nodes, k, t.current)|
            && Settle(nodes, k, t.current)[cut'..] == nodes[cut..]
            && SecondPass(env, t.inbound, ids, index + 1, plan, Settle(nodes, k, t.current), cut', left - plan[index],
                          t.stops, price, d, traded + t.qty, fills + t.fills, foundQty)
  {
    hide Matching.CreateTrade, CanTrade, Settle, PlanQty, ExecPlan, Plan, Remains;
    assert ids[index..][0] == ids[index] && ids[index..][1..] == ids[index + 1..];
    assert plan[index..][0] == plan[index] && plan[index..][1..] == plan[index + 1..];
    if left == 0 {
      SpentStep(env, inbound, ids[index..], nodes, cut, sb, price, plan[index], t);
      assert fills + [] == fills;
    } else {
      DeferredStep(env, inbound, ids[index..], nodes, cut, left, sb, price, plan[index], t);
      var cut' := if t.current.openQty == 0 then cut - 1 else cut;
      RemainsStep(d, traded, fills, t, ExecPlan(env, t.inbound, ids[index + 1..], Settle(nodes, k, t.current)[..cut'],
                                                left - plan[index], t.stops));
    }
  }

  /** The next order is behind the cut. */
  lemma NextIsBehind(env: OrderMap, inbound: Tracker, ids: seq<OrderId>, index: nat, plan: seq<nat>, nodes: seq<Entry>,
                     cut: nat, left: nat, sb: StopBook, price: nat,
                     d: Deferred, traded: nat, fills: seq<Callback>, foundQty: nat)
    requires SecondPass(env, inbound, ids, index, plan, nodes, cut, left, sb, price, d, traded, fills, foundQty)
    requires index < |ids|
    ensures IndexOf(nodes, ids[index]) < cut <= |nodes|
  {
    hide ExecPlan, Plan, Held, Clean;
    assert ids[index..][0] == ids[index];
    HeadIsBehind(env, inbound, ids[index..], nodes, cut, left, sb, price);
  }

  lemma SecondPassEnds(env: OrderMap, inbound: Tracker, ids: seq<OrderId>, index: nat, plan: seq<nat>,
                       nodes: seq<Entry>, cut: nat, left: nat, sb: StopBook, price: nat,
                       d: Deferred, traded: nat, fills: seq<Callback>, foundQty: nat)
    requires SecondPass(env, inbound, ids, index, plan, nodes, cut, left, sb, price, d, traded, fills, foundQty)
    requires index >= |ids| || traded >= foundQty
    ensures cut <= |nodes| && d == Deferred(inbound, nodes[..cut], sb, traded, fills)
  {
    RemainsEnd(env, d, traded, fills, inbound, ids[index..], nodes, cut, left, sb, price);
  }

  lemma RemainsEnd(env: OrderMap, d: Deferred, traded: nat, fills: seq<Callback>, inbound: Tracker, ids: seq<OrderId>,
                   nodes: seq<Entry>, cut: nat, left: nat, sb: StopBook, price: nat)
    requires CanTrade(env, inbound, ids, nodes, cut, left, sb, price)
    requires (ids == [] || PlanQty(ids, nodes[..cut], left) == 0)
    requires Remains(d, traded, fills, ExecPlan(env, inbound, ids, nodes[..cut], left, sb))
    ensures d == Deferred(inbound, nodes[..cut], sb, traded, fills)
  {
    NoPlanNoTrade(env, inbound, ids, nodes[..cut], left, sb);
    assert fills + [] == fills;
  }

  lemma HeldAreBehind(env: OrderMap, inbound: Tracker, ids: seq<OrderId>, nodes: seq<Entry>, cut: nat, left: nat,
                      sb: StopBook, price: nat)
    requires CanTrade(env, inbound, ids, nodes, cut, left, sb, price)
    ensures cut <= |nodes| && forall i :: 0 <= i < |ids| ==> IndexOf(nodes[..cut], ids[i]) < cut
  {
    forall i | 0 <= i < |ids|
      ensures IndexOf(nodes[..cut], ids[i]) < cut
    {
      assert Crossing(nodes[..cut], ids[i], price);
    }
  }

  // ---- Matching an all-or-none order ----

  function AonFrom(env: OrderMap, inbound: Tracker, qty: nat, price: nat, nodes: seq<Entry>, pos: nat,
                   held: seq<OrderId>, heldQty: nat, sb: StopBook): Match
    requires pos <= |nodes|
  {
    MatchAon(env, inbound, qty, price, nodes[..pos], nodes[pos..], held, heldQty, sb)
  }

  lemma AonStart(env: OrderMap, inbound: Tracker, price: nat, nodes: seq<Entry>, sb: StopBook)
    ensures var m := MatchAon(env, inbound, inbound.openQty, price, [], nodes, [], 0, sb);
            Continues(m, [], [], false, AonFrom(env, inbound, inbound.openQty, price, nodes, 0, [], 0, sb))
  {
    assert nodes[..0] == [] && nodes[0..] == nodes;
  }

  lemma AonEnd(m: Match, deferred: seq<OrderId>, fills: seq<Callback>, matched: bool, env: OrderMap, inbound: Tracker,
               qty: nat, price: nat, nodes: seq<Entry>, pos: nat, held: seq<OrderId>, heldQty: nat, sb: StopBook)
    requires pos <= |nodes| && !Ongoing(inbound, price, nodes, pos)
    requires Continues(m, deferred, fills, matched, AonFrom(env, inbound, qty, price, nodes, pos, held, heldQty, sb))
    ensures m == Match(inbound, nodes, sb, deferred, fills, matched)
  {
    assert nodes[..pos] + nodes[pos..] == nodes;
    assert deferred + [] == deferred && fills + [] == fills;
  }

  lemma AonPass(m: Match, deferred: seq<OrderId>, fills: seq<Callback>, matched: bool, env: OrderMap, inbound: Tracker,
                qty: nat, price: nat, nodes: seq<Entry>, pos: nat, held: seq<OrderId>, heldQty: nat, sb: StopBook)
    requires Ongoing(inbound, price, nodes, pos) && nodes[pos].tracker.aon && qty < nodes[pos].tracker.openQty
    requires Continues(m, deferred, fills, matched, AonFrom(env, inbound, qty, price, nodes, pos, held, heldQty, sb))
    ensures Continues(m, deferred + [nodes[pos].tracker.ptr], fills, matched,
                      AonFrom(env, inbound, qty, price, nodes, pos + 1, held, heldQty, sb))
  {
    PassNode(nodes, pos);
    PassingContinues(m, deferred, fills, matched, nodes[pos].tracker.ptr,
                     AonFrom(env, inbound, qty, price, nodes, pos + 1, held, heldQty, sb));
  }

  lemma AonHold(env: OrderMap, inbound: Tracker, qty: nat, price: nat, nodes: seq<Entry>, pos: nat, held: seq<OrderId>,
                heldQty: nat, sb: StopBook)
    requires Ongoing(inbound, price, nodes, pos)
    requires var e := nodes[pos].tracker; !(e.aon && qty < e.openQty) && e.openQty + heldQty < qty
    ensures var e := nodes[pos].tracker;
            AonFrom(env, inbound, qty, price, nodes, pos, held, heldQty, sb)
            == AonFrom(env, inbound, qty, price, nodes, pos + 1, held + [e.ptr], heldQty + e.openQty, sb)
  {
    PassNode(nodes, pos);
  }

  /** The resting order next to the cut, and all that has been deferred, might do. */
  ghost predicate MightDo(inbound: Tracker, price: nat, nodes: seq<Entry>, pos: nat, heldQty: nat) {
    && Ongoing(inbound, price, nodes, pos)
    && !(nodes[pos].tracker.aon && inbound.openQty < nodes[pos].tracker.openQty)
    && nodes[pos].tracker.openQty + heldQty >= inbound.openQty
  }

  lemma AonFail(env: OrderMap, inbound: Tracker, price: nat, nodes: seq<Entry>, pos: nat, held: seq<OrderId>,
                heldQty: nat, sb: StopBook)
    requires CanTrade(env, inbound, held, nodes, pos, 0, sb, price) && MightDo(inbound, price, nodes, pos, heldQty)
    requires nodes[pos].tracker.openQty > 0
    requires Offered(env, inbound, nodes[pos].tracker, held, nodes[..pos], sb) == 0
    requires !Completes(env, inbound, nodes[pos].tracker, 0, sb)
    ensures AonFrom(env, inbound, inbound.openQty, price, nodes, pos, held, heldQty, sb)
         == AonFrom(env, inbound, inbound.openQty, price, nodes, pos + 1, held, heldQty, sb)
  {
    hide MatchAon, Offered, Completes;
    PassNode(nodes, pos);
    AonPassesOn(env, inbound, price, nodes[..pos], nodes[pos], nodes[pos + 1..], held, heldQty, sb);
    assert [nodes[pos]] + nodes[pos + 1..] == nodes[pos..];
  }

  /** The side behind the cut once the resting order has traded. */
  function PastAon(done: seq<Entry>, e: Entry, t: Trade): seq<Entry> {
    if e.tracker.aon && t.qty > 0 then done else Past(done, e, t.current)
  }

  lemma AonFill(m: Match, deferred: seq<OrderId>, fills: seq<Callback>, matched: bool, env: OrderMap, inbound: Tracker,
                price: nat, nodes: seq<Entry>, pos: nat, held: seq<OrderId>, heldQty: nat, sb: StopBook, d: Deferred,
                    t: Trade)
    requires Ongoing(inbound, price, nodes, pos)
    requires var e, qty := nodes[pos].tracker, inbound.openQty;
             && !(e.aon && qty < e.openQty) && e.openQty + heldQty >= qty
             && d == TryDeferred(env, inbound, held, MaxFrom(e, qty), MinFrom(e, qty), nodes[..pos], sb)
             && Enough(e, qty, d.traded)
             && t == CreateTrade(env, d.inbound, e, d.inbound.openQty, d.stops)
             && t.inbound.openQty == 0
    requires Continues(m, deferred, fills, matched,
                       AonFrom(env, inbound, inbound.openQty, price, nodes, pos, held, heldQty, sb))
    ensures m == Match(t.inbound, PastAon(d.side, nodes[pos], t) + nodes[pos + 1..], t.stops, deferred,
                       fills + (d.fills + t.fills),
                       matched || (if nodes[pos].tracker.aon then t.qty > 0 else d.traded + t.qty > 0))
  {
    hide TryDeferred, Matching.CreateTrade, IndexOf;
    PassNode(nodes, pos);
    var e, qty := nodes[pos], inbound.openQty;
    var past, tail := PastAon(d.side, e, t), nodes[pos + 1..];
    var left := qty - Min(qty, d.traded + t.qty);
    var r := MatchAon(env, t.inbound, left, price, past, tail, held, heldQty, t.stops);
    assert r == Match(t.inbound, past + tail, t.stops, [], [], false);
    assert AonFrom(env, inbound, qty, price, nodes, pos, held, heldQty, sb)
        == r.After(d.fills + t.fills, if e.tracker.aon then t.qty > 0 else d.traded + t.qty > 0);
    AfterContinues(m, deferred, fills, matched, d.fills + t.fills, if e.tracker.aon then t.qty > 0
                   else d.traded + t.qty > 0, r);
    assert deferred + [] == deferred && fills + (d.fills + t.fills) + [] == fills + (d.fills + t.fills);
  }

  /** Between two iterations: the rest of the match is still to come, or the order is complete
      and the match is over. */
  ghost predicate AonState(env: OrderMap, m: Match, inbound: Tracker, price: nat, nodes: seq<Entry>, pos: nat,
                           held: seq<OrderId>, heldQty: nat, sb: StopBook,
                           deferred: seq<OrderId>, fills: seq<Callback>, matched: bool) {
    && pos <= |nodes|
    && if inbound.openQty == 0 then m == Match(inbound, nodes, sb, deferred, fills, matched)
       else
         && CanTrade(env, inbound, held, nodes, pos, 0, sb, price) && Clean(nodes)
         && AonSafe(env, inbound, price, nodes[..pos], nodes[pos..], held, heldQty, sb)
         && Continues(m, deferred, fills, matched, AonFrom(env, inbound, inbound.openQty, price, nodes, pos, held,
                                                           heldQty, sb))
  }

  lemma AonStateStarts(env: OrderMap, inbound: Tracker, price: nat, nodes: seq<Entry>, sb: StopBook)
    requires Clean(nodes) && AonSafe(env, inbound, price, [], nodes, [], 0, sb)
    ensures AonState(env, MatchAon(env, inbound, inbound.openQty, price, [], nodes, [], 0, sb), inbound, price, nodes,
                     0, [], 0, sb, [], [], false)
  {
    AonStart(env, inbound, price, nodes, sb);
    assert nodes[..0] == [] && nodes[0..] == nodes;
    if inbound.openQty == 0 {
      AonEnd(MatchAon(env, inbound, 0, price, [], nodes, [], 0, sb), [], [], false, env, inbound, 0, price, nodes, 0,
             [], 0, sb);
    }
  }

  lemma AonStateEnds(env: OrderMap, m: Match, inbound: Tracker, price: nat, nodes: seq<Entry>, pos: nat,
                     held: seq<OrderId>, heldQty: nat, sb: StopBook,
                     deferred: seq<OrderId>, fills: seq<Callback>, matched: bool)
    requires AonState(env, m, inbound, price, nodes, pos, held, heldQty, sb, deferred, fills, matched)
    requires !Ongoing(inbound, price, nodes, pos)
    ensures m == Match(inbound, nodes, sb, deferred, fills, matched)
  {
    if inbound.openQty != 0 {
      AonEnd(m, deferred, fills, matched, env, inbound, inbound.openQty, price, nodes, pos, held, heldQty, sb);
    }
  }

  /** Passing a node keeps the held orders behind the cut, and may hold that node too. */
  lemma CutMoves(env: OrderMap, inbound: Tracker, price: nat, nodes: seq<Entry>, pos: nat, held: seq<OrderId>,
                 sb: StopBook)
    requires CanTrade(env, inbound, held, nodes, pos, 0, sb, price) && Clean(nodes)
    requires Ongoing(inbound, price, nodes, pos)
    ensures CanTrade(env, inbound, held, nodes, pos + 1, 0, sb, price)
    ensures CanTrade(env, inbound, held + [nodes[pos].tracker.ptr], nodes, pos + 1, 0, sb, price)
  {
    PassNode(nodes, pos);
    assert Clean(nodes[..pos + 1]) by {
      assert forall k :: 0 <= k <= pos ==> nodes[..pos + 1][k] == nodes[k];
    }
    HeldGrows(held, nodes[..pos], nodes[pos], price);
  }

  lemma AonStatePasses(env: OrderMap, m: Match, inbound: Tracker, price: nat, nodes: seq<Entry>, pos: nat,
                       held: seq<OrderId>, heldQty: nat, sb: StopBook,
                       deferred: seq<OrderId>, fills: seq<Callback>, matched: bool)
    requires AonState(env, m, inbound, price, nodes, pos, held, heldQty, sb, deferred, fills, matched)
    requires Ongoing(inbound, price, nodes, pos)
    requires nodes[pos].tracker.aon && inbound.openQty < nodes[pos].tracker.openQty
    ensures AonState(env, m, inbound, price, nodes, pos + 1, held, heldQty, sb, deferred + [nodes[pos].tracker.ptr],
                     fills, matched)
  {
    hide CanTrade, Clean, MatchAon, Continues, AonSafe, Offered, Completes;
    CutMoves(env, inbound, price, nodes, pos, held, sb);
    SafeNext(env, inbound, price, nodes, pos, held, heldQty, sb);
    AonPass(m, deferred, fills, matched, env, inbound, inbound.openQty, price, nodes, pos, held, heldQty, sb);
  }

  lemma AonStateHolds(env: OrderMap, m: Match, inbound: Tracker, price: nat, nodes: seq<Entry>, pos: nat,
                      held: seq<OrderId>, heldQty: nat, sb: StopBook,
                      deferred: seq<OrderId>, fills: seq<Callback>, matched: bool)
    requires AonState(env, m, inbound, price, nodes, pos, held, heldQty, sb, deferred, fills, matched)
    requires Ongoing(inbound, price, nodes, pos)
    requires var e := nodes[pos].tracker;
             !(e.aon && inbound.openQty < e.openQty) && e.openQty + heldQty < inbound.openQty
    ensures var e := nodes[pos].tracker;
            AonState(env, m, inbound, price, nodes, pos + 1, held + [e.ptr], heldQty + e.openQty, sb, deferred, fills,
                     matched)
  {
    hide CanTrade, Clean, MatchAon, Continues, AonSafe, Offered, Completes;
    CutMoves(env, inbound, price, nodes, pos, held, sb);
    SafeNext(env, inbound, price, nodes, pos, held, heldQty, sb);
    AonHold(env, inbound, inbound.openQty, price, nodes, pos, held, heldQty, sb);
  }

  /** What is safe from here on is safe behind the next node. */
  lemma SafeNext(env: OrderMap, inbound: Tracker, price: nat, nodes: seq<Entry>, pos: nat, held: seq<OrderId>,
                 heldQty: nat, sb: StopBook)
    requires Ongoing(inbound, price, nodes, pos)
    requires AonSafe(env, inbound, price, nodes[..pos], nodes[pos..], held, heldQty, sb)
    ensures var e := nodes[pos].tracker;
            var offered := Offered(env, inbound, e, held, nodes[..pos], sb);
            if e.aon && inbound.openQty < e.openQty then
              AonSafe(env, inbound, price, nodes[..pos + 1], nodes[pos + 1..], held, heldQty, sb)
            else if e.openQty + heldQty < inbound.openQty then
              AonSafe(env, inbound, price, nodes[..pos + 1], nodes[pos + 1..], held + [e.ptr], heldQty + e.openQty, sb)
            else
              || Completes(env, inbound, e, offered, sb)
              || (offered == 0 && AonSafe(env, inbound, price, nodes[..pos + 1], nodes[pos + 1..], held, heldQty, sb))
  {
    hide Offered, Completes;
    PassNode(nodes, pos);
  }

  lemma AonStateTries(env: OrderMap, m: Match, inbound: Tracker, price: nat, nodes: seq<Entry>, pos: nat,
                      held: seq<OrderId>, heldQty: nat, sb: StopBook,
                      deferred: seq<OrderId>, fills: seq<Callback>, matched: bool, d: Deferred, t: Trade)
    requires AonState(env, m, inbound, price, nodes, pos, held, heldQty, sb, deferred, fills, matched)
    requires MightDo(inbound, price, nodes, pos, heldQty)
    requires d == TryDeferred(env, inbound, held, MaxFrom(nodes[pos].tracker, inbound.openQty),
                              MinFrom(nodes[pos].tracker, inbound.openQty), nodes[..pos], sb)
    requires t == CreateTrade(env, d.inbound, nodes[pos].tracker, d.inbound.openQty, d.stops)
    ensures CanTrade(env, inbound, held, nodes, pos, MaxFrom(nodes[pos].tracker, inbound.openQty), sb, price)
    ensures nodes[pos].tracker.openQty > 0
    ensures if Completes(env, inbound, nodes[pos].tracker, d.traded, sb) then
              && Enough(nodes[pos].tracker, inbound.openQty, d.traded)
              && t.inbound.openQty == 0 && d.traded + t.qty == inbound.openQty && (nodes[pos].tracker.aon ==> t.qty > 0)
              && m == Match(t.inbound, PastAon(d.side, nodes[pos], t) + nodes[pos + 1..], t.stops, deferred,
                            fills + (d.fills + t.fills), true)
            else
              && d == Deferred(inbound, nodes[..pos], sb, 0, [])
              && (Enough(nodes[pos].tracker, inbound.openQty, 0) ==> t == Trade(inbound, nodes[pos].tracker, sb, 0, []))
              && AonState(env, m, inbound, price, nodes, pos + 1, held, heldQty, sb, deferred, fills, matched)
  {
    hide MatchAon, Continues, TryDeferred, Distinct, Held, AonSafe, Offered, Runs, Matching.CreateTrade;
    var e := nodes[pos].tracker;
    SafeNext(env, inbound, price, nodes, pos, held, heldQty, sb);
    TryGives(env, inbound, price, nodes[..pos], e, held, sb);
    if Completes(env, inbound, e, d.traded, sb) {
      AonQuantities(env, inbound, price, nodes[..pos], e, held, sb);
      AonFill(m, deferred, fills, matched, env, inbound, price, nodes, pos, held, heldQty, sb, d, t);
    } else {
      CutMoves(env, inbound, price, nodes, pos, held, sb);
      AonFail(env, inbound, price, nodes, pos, held, heldQty, sb);
      if Enough(e, inbound.openQty, 0) {
        NoPriceNoTrade(env, inbound, e, sb);
      }
    }
  }

  // ---- The re-check, a submission, and the cascade ----

  ghost predicate RecheckContinues(c: Recheck, fills: seq<Callback>, matched: bool, rest: Recheck) {
    c == rest.(fills := fills + rest.fills, matched := matched || rest.matched)
  }

  lemma RecheckMatches(c: Recheck, fills: seq<Callback>, matched: bool, v: View, ids: seq<OrderId>, aons: seq<Entry>,
                       market: seq<Entry>, buySide: bool, sb: StopBook, k: nat, m: Match)
    requires PairOk(v, aons, market, buySide, sb) && ids != [] && k == IndexOf(aons, ids[0]) < |aons|
    requires m == MatchOrder(v.env, aons[k].tracker, aons[k].key.price, market, sb)
    requires RecheckContinues(c, fills, matched, CheckDeferred(v.env, ids, aons, market, sb))
    ensures PairOk(v, Settle(aons, k, m.inbound), m.side, buySide, m.stops)
    ensures RecheckContinues(c, fills + m.fills, matched ||
                             m.matched, CheckDeferred(v.env, ids[1..], Settle(aons, k, m.inbound), m.side, m.stops))
  {
    hide PairOk, Settle, Matching.MatchOrder;
    RecheckStep(v, aons, k, market, buySide, sb, 0, LiveOf(0));
    Regrouped(fills, m.fills, CheckDeferred(v.env, ids[1..], Settle(aons, k, m.inbound), m.side, m.stops).fills);
  }

  /** A resting order may be matched as an inbound order. */
  lemma RestingMayMatch(v: View, aons: seq<Entry>, market: seq<Entry>, buySide: bool, sb: StopBook, k: nat)
    requires PairOk(v, aons, market, buySide, sb) && k < |aons|
    ensures Clean(market)
    ensures aons[k].tracker.aon ==> AonSafe(v.env, aons[k].tracker, aons[k].key.price, [], market, [], 0, sb)
  {
    assert Resting(v, aons[k], buySide);
    SideIsOpposed(v, aons[k].tracker, market, !buySide);
    if aons[k].tracker.aon {
      OpposedIsSafe(v, aons[k].tracker, market, aons[k].key.price, sb);
    }
  }

  /** An order that may be submitted may be matched. */
  lemma SubmittableMatches(v: View, b: Book, t: Tracker)
    requires Submittable(v, b, t)
    ensures Clean(b.bids) && Clean(b.asks)
    ensures t.aon ==> AonSafe(v.env, t, PriceOf(v.denv, t.ptr), [], b.Side(!IsBuy(v.denv, t.ptr)), [], 0, b.stops)
    ensures IsBuy(v.env, t.ptr) == IsBuy(v.denv, t.ptr)
  {
    var buy := IsBuy(v.denv, t.ptr);
    SideIsOpposed(v, t, b.Side(!buy), !buy);
    if t.aon {
      OpposedIsSafe(v, t, b.Side(!buy), PriceOf(v.denv, t.ptr), b.stops);
    }
  }

  /** What the first match leaves, with the rest of the order on its side, may be re-checked. */
  lemma FirstMatchPairs(v: View, b: Book, t: Tracker, m: Match)
    requires Submittable(v, b, t)
    requires m == MatchOrder(v.env, t, PriceOf(v.denv, t.ptr), b.Side(!IsBuy(v.denv, t.ptr)), b.stops)
    requires m.inbound.openQty > 0 && !m.inbound.ioc
    ensures var buy := IsBuy(v.denv, t.ptr);
            PairOk(v, m.side, Insert(b.Side(buy), Entry(ComparablePrice(buy, PriceOf(v.denv, t.ptr)), m.inbound)), !buy,
                   m.stops)
  {
    var buy, price := IsBuy(v.denv, t.ptr), PriceOf(v.denv, t.ptr);
    FirstMatchKeeps(v, t, price, b.Side(!buy), !buy, b.stops, 0, LiveOf(0));
    InsertKeepsSideOk(v, b.Side(buy), Entry(ComparablePrice(buy, price), m.inbound), buy);
  }

  /** The orders submitted so far, and those still waiting, make up one round. */
  ghost predicate RoundContinues(s: Submitted, fills: seq<Callback>, dropped: seq<Tracker>, rest: Submitted) {
    s == Submitted(rest.book, fills + rest.fills, dropped + rest.dropped)
  }

  lemma RoundSubmits(s: Submitted, fills: seq<Callback>, dropped: seq<Tracker>, v: View, b: Book, waiting: seq<Tracker>,
                     a: Added)
    requires QueueOk(v, b, waiting) && waiting != []
    requires a == AddOrder(v.env, b, waiting[0], PriceOf(v.env, waiting[0].ptr))
    requires RoundContinues(s, fills, dropped, SubmitAll(v.env, b, waiting))
    ensures QueueOk(v, a.book, waiting[1..])
    ensures RoundContinues(s, fills + a.fills, dropped + a.dropped, SubmitAll(v.env, a.book, waiting[1..]))
  {
    hide Matching.AddOrder, QueueOk;
    SubmitOneKeeps(v, b, waiting);
    Regrouped(fills, a.fills, SubmitAll(v.env, a.book, waiting[1..]).fills);
    Regrouped(dropped, a.dropped, SubmitAll(v.env, a.book, waiting[1..]).dropped);
  }

  /** Another round of the cascade; each one has less to submit. */
  lemma CascadeContinues(p: Submitted, fills: seq<Callback>, dropped: seq<Tracker>, v: View, b: Book, s: Submitted)
    requires QueueOk(v, b, []) && b.stops.pending != [] && s == SubmitAll(v.env, Emptied(b), b.stops.pending)
    requires RoundContinues(p, fills, dropped, SubmitPending(v.env, b))
    ensures QueueOk(v, s.book, []) && s.book.stops.Load() < b.stops.Load()
    ensures RoundContinues(p, fills + s.fills, dropped + s.dropped, SubmitPending(v.env, s.book))
  {
    hide Matching.SubmitAll, QueueOk;
    SubmittedIsQueue(v, b);
    Regrouped(fills, s.fills, SubmitPending(v.env, s.book).fills);
    Regrouped(dropped, s.dropped, SubmitPending(v.env, s.book).dropped);
  }
}
