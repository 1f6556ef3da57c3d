/** Prices that know their side of the market: the order every book is sorted by
    and the crossing test every match starts from (src/book/comparable_price.h). */
module Prices {

  /** A price of zero marks a market order. */
  const MARKET_ORDER_PRICE: nat := 0

  datatype ComparablePrice = ComparablePrice(buySide: bool, price: nat) {

    /** Can an order with this key trade with an opposite order priced `rhs`? */
    predicate Matches(rhs: nat) {
      || price == rhs
      || (if buySide then rhs < price || price == MARKET_ORDER_PRICE
          else price < rhs || rhs == MARKET_ORDER_PRICE)
    }

    /** Does this key sort before `rhs` on the same side? */
    predicate LessPrice(rhs: nat) {
      if price == MARKET_ORDER_PRICE then rhs != MARKET_ORDER_PRICE
      else if rhs == MARKET_ORDER_PRICE then false
      else if buySide then rhs < price
      else price < rhs
    }

    predicate Less(rhs: ComparablePrice) {
      LessPrice(rhs.price)
    }

    predicate GreaterPrice(rhs: nat) {
      price != MARKET_ORDER_PRICE
      && (rhs == MARKET_ORDER_PRICE || (if buySide then rhs > price else price > rhs))
    }

    /** The inequality operator as it parses: the negation binds to the price alone. */
    predicate NotEqualPrice(rhs: nat) {
      (if price == 0 then 1 else 0) == rhs
    }
  }

  /** On one side the keys are totally ordered: irreflexive, transitive, and two keys
      that are not ordered either way carry the same price. */
  lemma LessIsStrictTotalOrder(a: ComparablePrice, b: ComparablePrice, c: ComparablePrice)
    requires a.buySide == b.buySide == c.buySide
    ensures !a.Less(a)
    ensures a.Less(b) && b.Less(c) ==> a.Less(c)
    ensures !b.Less(a) && !c.Less(b) ==> !c.Less(a)
    ensures !a.Less(b) && !b.Less(a) <==> a == b
    ensures a.Less(b) <==> b.GreaterPrice(a.price)
  {
  }

  /** Every key that sorts no later than a matching key matches too. */
  lemma MatchesIsDownwardClosed(a: ComparablePrice, b: ComparablePrice, p: nat)
    requires a.buySide == b.buySide
    requires !b.Less(a) && b.Matches(p)
    ensures a.Matches(p)
  {
  }

  /** A bid matches an ask's price exactly when the ask matches the bid's price. */
  lemma MatchesIsSymmetric(bid: ComparablePrice, ask: ComparablePrice)
    requires bid.buySide && !ask.buySide
    ensures bid.Matches(ask.price) <==> ask.Matches(bid.price)
  {
  }

  /** The inequality operator negates equality for exactly these operands. */
  lemma NotEqualNegatesEqualExactlyWhen(a: ComparablePrice, rhs: nat)
    ensures (a.NotEqualPrice(rhs) <==> a.price != rhs)
       <==> (if a.price == 0 then rhs <= 1 else rhs == 0 || rhs == a.price)
  {
  }

  /** A key of 100 is not unequal to 99. */
  lemma NotEqualMisjudges()
    ensures !ComparablePrice(true, 100).NotEqualPrice(99)
  {
  }
}
