/** The price-sorted multimaps of the order book (src/book/order_book.h). */
module BookClasses {
  import opened Prices
  import opened Orders
  import opened Books

  /** A multimap of trackers sorted by comparable price; an iterator is an index. */
  class TrackerMap {
    var nodes: seq<Entry>

    constructor ()
      ensures nodes == []
    {
      nodes := [];
    }

    /** A new node goes behind all nodes with an equal key. */
    method Emplace(key: ComparablePrice, tracker: Tracker)
      modifies this
      ensures nodes == Insert(old(nodes), Entry(key, tracker))
    {
      var k := 0;
      while k < |nodes| && !key.Less(nodes[k].key)
        invariant k <= |nodes|
        invariant InsertPos(nodes, key) == k + InsertPos(nodes[k..], key)
      {
        assert nodes[k..][1..] == nodes[k + 1..];
        k := k + 1;
      }
      nodes := nodes[..k] + [Entry(key, tracker)] + nodes[k..];
    }

    method EraseAt(k: nat)
      requires k < |nodes|
      modifies this
      ensures nodes == Erase(old(nodes), k)
    {
      nodes := nodes[..k] + nodes[k + 1..];
    }

    /** The tracker of a node, changed in place. */
    method SetTracker(k: nat, tracker: Tracker)
      requires k < |nodes|
      modifies this
      ensures nodes == old(nodes)[k := old(nodes)[k].(tracker := tracker)]
    {
      nodes := nodes[k := nodes[k].(tracker := tracker)];
    }
  }
}
