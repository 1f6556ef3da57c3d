/** The depth object: a fixed array of visible levels per side, shifted in place, with an
    overflow for the rest; it refines a map from prices (src/book/depth.h). */
module Depths {
  import opened DepthSpec
  import opened DepthLevels

  class Depth {
    const SIZE: nat
    const levels: array<DepthLevel>
    var lastChange: nat
    var lastPublishedChange: nat
    var ignoreBidFillQty: nat
    var ignoreAskFillQty: nat
    var excessBidLevels: seq<DepthLevel>
    var excessAskLevels: seq<DepthLevel>
    /** What each side showed when it was last published. */
    ghost var shownBids: seq<Datum>
    ghost var shownAsks: seq<Datum>

    constructor (size: nat)
      requires size > 0
      ensures fresh(levels) && Valid() && SIZE == size && Value() == AbsDepth(DepthSide(map[], 0), DepthSide(map[], 0))
      ensures !Changed()
    {
      SIZE := size;
      levels := new DepthLevel[2 * size](_ => BLANK);
      lastChange, lastPublishedChange := 0, 0;
      ignoreBidFillQty, ignoreAskFillQty := 0, 0;
      excessBidLevels, excessAskLevels := [], [];
      shownBids, shownAsks := seq(size, _ => BLANK.Data()), seq(size, _ => BLANK.Data());
      new;
      BlankSide(Slots(true), true);
      BlankSide(Slots(false), false);
    }

    /** Both sides are laid out, every level has an order, and the stamps tell what changed. */
    ghost predicate Valid()
      reads this, levels
    {
      && Sized()
      && SideLaid(true) && SideLaid(false)
      && Populated(Levels(true)) && Populated(Levels(false))
      && lastPublishedChange <= lastChange
      && StampedSide(Slots(true), shownBids, lastPublishedChange, lastChange)
      && StampedSide(Slots(false), shownAsks, lastPublishedChange, lastChange)
    }

    function Ignored(isBid: bool): nat
      reads this`ignoreBidFillQty, this`ignoreAskFillQty
    {
      if isBid then ignoreBidFillQty else ignoreAskFillQty
    }

    /** The side as a map from prices. */
    ghost function Side(isBid: bool): DepthSide
      requires Sized()
      reads this, levels
    {
      DepthSide(MapOf(Levels(isBid)), Ignored(isBid))
    }

    ghost function Value(): AbsDepth
      requires Sized()
      reads this, levels
    {
      AbsDepth(Side(true), Side(false))
    }

    predicate Changed()
      reads this`lastChange, this`lastPublishedChange
    {
      lastChange > lastPublishedChange
    }

    /** From now on, changes are changes to what is shown now. */
    method Published()
      requires Valid()
      modifies this`lastPublishedChange, this`shownBids, this`shownAsks
      ensures Valid() && !Changed()
      ensures shownBids == Datas(Slots(true)) && shownAsks == Datas(Slots(false))
    {
      hide Laid, Datas, All, Filled, Populated, StampedSide;
      ghost var published := lastPublishedChange;
      PublishedStamps(Slots(true), shownBids, published, lastChange);
      PublishedStamps(Slots(false), shownAsks, published, lastChange);
      lastPublishedChange := lastChange;
      shownBids, shownAsks := Datas(Slots(true)), Datas(Slots(false));
    }

    ghost predicate Sized() {
      SIZE > 0 && levels.Length == 2 * SIZE
    }

    /** The first slot of a side. */
    function Base(isBid: bool): nat {
      if isBid then 0 else SIZE
    }

    ghost function Slots(isBid: bool): (s: seq<DepthLevel>)
      requires Sized()
      reads levels
      ensures |s| == SIZE
    {
      levels[Base(isBid)..Base(isBid) + SIZE]
    }

    function Excess(isBid: bool): seq<DepthLevel>
      reads this`excessBidLevels, this`excessAskLevels
    {
      if isBid then excessBidLevels else excessAskLevels
    }

    method SetExcess(isBid: bool, excess: seq<DepthLevel>)
      modifies this`excessBidLevels, this`excessAskLevels
      ensures Excess(isBid) == excess && Excess(!isBid) == old(Excess(!isBid))
    {
      if isBid {
        excessBidLevels := excess;
      } else {
        excessAskLevels := excess;
      }
    }

    ghost predicate SideLaid(isBid: bool)
      requires Sized()
      reads levels, this`excessBidLevels, this`excessAskLevels
    {
      Laid(Slots(isBid), Excess(isBid), isBid)
    }

    ghost function Levels(isBid: bool): seq<Datum>
      requires Sized()
      reads levels, this`excessBidLevels, this`excessAskLevels
    {
      All(Slots(isBid), Excess(isBid))
    }

    // ---- Shifting ----

    /** Copy every level from `first` on one place down, the last one over the end. */
    method ShiftDown(first: nat, last: nat)
      requires first <= last < levels.Length
      modifies levels
      ensures forall j {:trigger levels[j]} :: 0 <= j < levels.Length ==>
        levels[j] == if first < j <= last then MovedDown(old(levels[j]), old(levels[j - 1]), lastChange)
            else old(levels[j])
    {
      var current: int := last - 1;
      while current >= first
        invariant first - 1 <= current <= last - 1
        invariant forall j {:trigger levels[j]} :: 0 <= j < levels.Length ==>
          levels[j] == if current + 1 < j <= last then MovedDown(old(levels[j]), old(levels[j - 1]), lastChange)
              else old(levels[j])
      {
        levels[current + 1] := levels[current + 1].Assign(levels[current]);
        // a valid level has changed
        if levels[current].price != INVALID_LEVEL_PRICE {
          levels[current + 1] := levels[current + 1].Stamped(lastChange);
        }
        current := current - 1;
      }
    }

    /** Insert a blank level before slot `i` of a side; what falls out at the end goes into
        the excess. */
    method InsertLevelBefore(i: nat, isBid: bool, price: nat)
      requires Sized() && i < SIZE && SideLaid(isBid)
      modifies this`lastChange, this`excessBidLevels, this`excessAskLevels, levels
      ensures lastChange == old(lastChange) + 1
      ensures ShiftedDown(old(Slots(isBid)), Slots(isBid), i, price, lastChange)
      ensures Excess(isBid) == PushedOut(old(Slots(isBid)), old(Excess(isBid)))
      ensures Slots(!isBid) == old(Slots(!isBid)) && Excess(!isBid) == old(Excess(!isBid))
    {
      hide Laid, Packed, ShiftedDown, PushedOut, MovedDown, Filled;
      ghost var was := levels[..];
      var base := Base(isBid);
      var last := base + SIZE - 1;
      PushLastOut(isBid);
      lastChange := lastChange + 1;
      ShiftDown(base + i, last);
      levels[base + i] := levels[base + i].Init(price, false);
      ShiftedSlice(was, levels[..], base, SIZE, i, price, lastChange);
      SameSlice(was, levels[..], base + i, last, Base(!isBid), SIZE);
    }

    /** The last level moves to the excess when it has valid data. */
    method PushLastOut(isBid: bool)
      requires Sized() && SideLaid(isBid)
      modifies this`excessBidLevels, this`excessAskLevels
      ensures Excess(isBid) == PushedOut(Slots(isBid), old(Excess(isBid))) && Excess(!isBid) == old(Excess(!isBid))
    {
      hide Laid, Filled;
      var last := Base(isBid) + SIZE - 1;
      assert Slots(isBid)[SIZE - 1] == levels[last];
      if levels[last].price != INVALID_LEVEL_PRICE {
        var excessLevel := DepthLevel(0, 0, 0, true, 0).Assign(levels[last]);
        LastIsFull(Slots(isBid), Excess(isBid), isBid);
        InsertExcess(isBid, excessLevel);
      }
    }

    /** The overflow is a map sorted by price: a new level goes to its place. */
    method InsertExcess(isBid: bool, level: DepthLevel)
      requires Sized() && SideLaid(isBid) && Filled(Slots(isBid)) == SIZE
      requires level.Data() == Slots(isBid)[SIZE - 1].Data()
      modifies this`excessBidLevels, this`excessAskLevels
      ensures Excess(isBid) == [level] + old(Excess(isBid)) && Excess(!isBid) == old(Excess(!isBid))
    {
      var excess := Excess(isBid);
      var k := 0;
      while k < |excess| && Better(isBid, excess[k].price, level.price)
        invariant k <= |excess| && forall j :: 0 <= j < k ==> Better(isBid, excess[j].price, level.price)
      {
        k := k + 1;
      }
      FirstExcessIsWorse(Slots(isBid), excess, isBid);
      assert k == 0;
      SetExcess(isBid, excess[..k] + [level] + excess[k..]);
    }

    // ---- Finding a level ----

    /** The linear search over the slots of a side: up to the price itself, or, when a level
        may be created, to the first slot that is blank or worse. */
    method SearchSlots(price: nat, isBid: bool, shouldCreate: bool) returns (k: nat)
      requires Sized()
      ensures k <= SIZE
      ensures k < SIZE ==>
              Slots(isBid)[k].price
              == price || (shouldCreate && (Slots(isBid)[k].price == INVALID_LEVEL_PRICE ||
                                            Better(isBid, price, Slots(isBid)[k].price)))
      ensures forall j {:trigger Slots(isBid)[j]} :: 0 <= j < k ==> Slots(isBid)[j].price != price
      ensures shouldCreate ==> BetterBefore(Slots(isBid), k, isBid, price)
    {
      var base := Base(isBid);
      k := 0;
      while k < SIZE
        invariant k <= SIZE
        invariant forall j {:trigger Slots(isBid)[j]} :: 0 <= j < k ==> Slots(isBid)[j].price != price
        invariant shouldCreate ==> BetterBefore(Slots(isBid), k, isBid, price)
      {
        assert Slots(isBid)[k] == levels[base + k];
        if levels[base + k].price == price {
          break;
        } else if shouldCreate && levels[base + k].price == INVALID_LEVEL_PRICE {
          break;
        } else if isBid && shouldCreate && levels[base + k].price < price {
          break;
        } else if !isBid && shouldCreate && levels[base + k].price > price {
          break;
        }
        k := k + 1;
      }
    }

    /** The search in the overflow. */
    method SearchExcess(price: nat, isBid: bool) returns (e: nat)
      ensures e <= |Excess(isBid)| && (forall j :: 0 <= j < e ==> Better(isBid, Excess(isBid)[j].price, price))
      ensures e < |Excess(isBid)| ==> !Better(isBid, Excess(isBid)[e].price, price)
    {
      var excess := Excess(isBid);
      e := 0;
      while e < |excess| && Better(isBid, excess[e].price, price)
        invariant e <= |excess| && forall j :: 0 <= j < e ==> Better(isBid, excess[j].price, price)
      {
        e := e + 1;
      }
    }

    /** The place of the level of a price among all levels of the side, visible or not. */
    method FindLevel(price: nat, isBid: bool) returns (at: nat)
      requires Sized() && SideLaid(isBid) && price in MapOf(Levels(isBid))
      ensures at == Find(Levels(isBid), price) < |Levels(isBid)|
    {
      hide Filled, Datas, Laid, All, MapOf, Find, Base, Slots, Excess;
      var k := SearchSlots(price, isBid, false);
      if k < SIZE {
        at := k;
      } else {
        var e := SearchExcess(price, isBid);
        at := SIZE + e;
      }
      FoundLevel(Slots(isBid), Excess(isBid), isBid, price, k, at);
    }

    /** The same, creating the level when there is none. */
    method FindOrCreateLevel(price: nat, isBid: bool) returns (at: nat)
      requires Sized() && SideLaid(isBid) && price != INVALID_LEVEL_PRICE
      modifies this`lastChange, this`excessBidLevels, this`excessAskLevels, levels
      ensures SideLaid(isBid) && at == Place(old(Levels(isBid)), isBid, price) < |Levels(isBid)|
      ensures Levels(isBid) == WithLevel(old(Levels(isBid)), isBid, price)
      ensures Slots(!isBid) == old(Slots(!isBid)) && Excess(!isBid) == old(Excess(!isBid))
      ensures old(lastChange) <= lastChange <= old(lastChange) + 1
      ensures forall j {:trigger Slots(isBid)[j]} :: 0 <= j < SIZE && j != at ==>
        Slots(isBid)[j] == old(Slots(isBid))[j] || Slots(isBid)[j].lastChange == old(lastChange) + 1
      ensures at >= SIZE ==> Slots(isBid) == old(Slots(isBid)) && lastChange == old(lastChange)
    {
      hide Filled, Datas, Laid, All, Place, Ordered, WithLevel;
      var base := Base(isBid);
      var k := SearchSlots(price, isBid, true);
      if k < SIZE {
        at := k;
        StoppedAtPlace(Slots(isBid), Excess(isBid), isBid, price, k);
        if levels[base + k].price == INVALID_LEVEL_PRICE {
          TakeBlank(k, price, isBid);
        } else if levels[base + k].price != price {
          CreateVisible(k, price, isBid);
        } else {
          IsThere(Levels(isBid), isBid, price);
        }
      } else {
        at := FindOrCreateExcess(price, isBid);
      }
    }

    /** A blank slot; its change stamp is assigned by the caller. */
    method TakeBlank(k: nat, price: nat, isBid: bool)
      requires Sized() && SideLaid(isBid) && price != INVALID_LEVEL_PRICE && k < SIZE
      requires k == Filled(Slots(isBid)) && k == Place(Levels(isBid), isBid, price) == |Levels(isBid)|
      modifies levels
      ensures SideLaid(isBid) && Levels(isBid) == WithLevel(old(Levels(isBid)), isBid, price) && k < |Levels(isBid)|
      ensures Slots(!isBid) == old(Slots(!isBid))
      ensures forall j {:trigger Slots(isBid)[j]} :: 0 <= j < SIZE && j != k ==> Slots(isBid)[j] == old(Slots(isBid))[j]
    {
      hide Filled, Datas, Laid, All, Place, Ordered;
      ghost var slots, excess := Slots(isBid), Excess(isBid);
      LaidMeans(slots, excess, isBid);
      WithLevelOrdered(Levels(isBid), isBid, price);
      BlankTaken(slots, excess, isBid, price, k);
      levels[Base(isBid) + k] := levels[Base(isBid) + k].Init(price, false);
      assert Slots(isBid) == slots[k := slots[k].Init(price, false)];
      WithLevelAtEnd(All(slots, excess), isBid, price);
      IsLaid(Slots(isBid), Excess(isBid), isBid, WithLevel(All(slots, excess), isBid, price));
    }

    method CreateVisible(k: nat, price: nat, isBid: bool)
      requires Sized() && SideLaid(isBid) && price != INVALID_LEVEL_PRICE && k < SIZE && k < Filled(Slots(isBid))
      requires k == Place(Levels(isBid), isBid, price) < |Levels(isBid)| && Levels(isBid)[k].price != price
      modifies this`lastChange, this`excessBidLevels, this`excessAskLevels, levels
      ensures SideLaid(isBid) && Levels(isBid) == WithLevel(old(Levels(isBid)), isBid, price) && k < |Levels(isBid)|
      ensures Slots(!isBid) == old(Slots(!isBid)) && Excess(!isBid) == old(Excess(!isBid))
      ensures lastChange == old(lastChange) + 1
      ensures forall j {:trigger Slots(isBid)[j]} :: 0 <= j < SIZE && j != k ==>
        Slots(isBid)[j] == old(Slots(isBid))[j] || Slots(isBid)[j].lastChange == lastChange
    {
      hide Filled, Datas, Laid, All, Place, Ordered, Packed;
      ghost var slots, excess := Slots(isBid), Excess(isBid);
      LaidMeans(slots, excess, isBid);
      WithLevelOrdered(Levels(isBid), isBid, price);
      InsertLevelBefore(k, isBid, price);
      InsertedAll(slots, excess, Slots(isBid), k, price, lastChange);
      IsLaid(Slots(isBid), Excess(isBid), isBid, WithLevel(All(slots, excess), isBid, price));
      MovedDownStamps(slots, Slots(isBid), k, price, lastChange);
    }

    method FindOrCreateExcess(price: nat, isBid: bool) returns (at: nat)
      requires Sized() && SideLaid(isBid) && price != INVALID_LEVEL_PRICE
      requires BetterBefore(Slots(isBid), SIZE, isBid, price)
      modifies this`excessBidLevels, this`excessAskLevels
      ensures SideLaid(isBid) && SIZE <= at == Place(old(Levels(isBid)), isBid, price) < |Levels(isBid)|
      ensures Levels(isBid) == WithLevel(old(Levels(isBid)), isBid, price) && Excess(!isBid) == old(Excess(!isBid))
    {
      hide Filled, Datas, Laid, All, Place, Ordered, Packed;
      ghost var slots, excess := Slots(isBid), Excess(isBid);
      LaidMeans(slots, excess, isBid);
      WithLevelOrdered(Levels(isBid), isBid, price);
      var e := SearchExcess(price, isBid);
      BeyondVisible(slots, excess, isBid, price, e);
      at := SIZE + e;
      if e == |Excess(isBid)| || Excess(isBid)[e].price != price {
        var level := DepthLevel(price, 0, 0, true, 0);
        SetExcess(isBid, Excess(isBid)[..e] + [level] + Excess(isBid)[e..]);
        ExcessInserted(slots, excess, Excess(isBid), e, at, level);
        assert forall j :: 0 <= j < |Excess(isBid)| ==> Excess(isBid)[j].isExcess;
        IsLaid(Slots(isBid), Excess(isBid), isBid, WithLevel(All(slots, excess), isBid, price));
      } else {
        IsThere(Levels(isBid), isBid, price);
      }
    }

    // ---- Erasing and changing a level ----

    /** Copy every level after `first` one place up. */
    method ShiftUp(first: nat, last: nat)
      requires first <= last < levels.Length
      modifies levels
      ensures UpTo(old(levels[..]), levels[..], first, last, lastChange)
    {
      var current := first;
      while current < last
        invariant first <= current <= last
        invariant forall j {:trigger levels[j]} :: 0 <= j < levels.Length ==>
          levels[j] == if first <= j < current && old(levels[j]).price != INVALID_LEVEL_PRICE then
              MovedUp(old(levels[j]), old(levels[j + 1]), lastChange) else old(levels[j])
      {
        if levels[current].price != INVALID_LEVEL_PRICE {
          levels[current] := levels[current].Assign(levels[current + 1]);
          levels[current] := levels[current].Stamped(lastChange);
        }
        current := current + 1;
      }
      AllShifted(old(levels[..]), levels[..], first, last, lastChange);
    }

    /** The last slot takes the best level of the excess, or becomes blank. */
    method RestoreLast(isBid: bool)
      requires Sized() && Slots(isBid)[SIZE - 1].price != INVALID_LEVEL_PRICE
      modifies levels, this`excessBidLevels, this`excessAskLevels
      ensures Slots(isBid)
              == old(Slots(isBid))[SIZE - 1 := Restored(old(Slots(isBid))[SIZE - 1], old(Excess(isBid)), lastChange)]
      ensures Excess(isBid) == if old(Excess(isBid)) != [] then old(Excess(isBid))[1..] else []
      ensures Slots(!isBid) == old(Slots(!isBid)) && Excess(!isBid) == old(Excess(!isBid))
    {
      var last := Base(isBid) + SIZE - 1;
      var excess := Excess(isBid);
      ghost var slots := Slots(isBid);
      assert slots[SIZE - 1] == levels[last];
      if excess != [] {
        levels[last] := levels[last].Assign(excess[0]);
        SetExcess(isBid, excess[1..]);
      } else {
        levels[last] := levels[last].Init(INVALID_LEVEL_PRICE, false);
        levels[last] := levels[last].Stamped(lastChange);
      }
      levels[last] := levels[last].Stamped(lastChange);
      assert Slots(isBid) == slots[SIZE - 1 := levels[last]];
    }

    /** The slots of one side, from a place on. */
    method ShiftSlots(i: nat, isBid: bool)
      requires Sized() && i < SIZE
      modifies levels
      ensures SlotsMovedUp(old(Slots(isBid)), Slots(isBid), i, lastChange) && Slots(!isBid) == old(Slots(!isBid))
    {
      hide UpTo, SlotsMovedUp;
      ghost var was := levels[..];
      var base := Base(isBid);
      ShiftUp(base + i, base + SIZE - 1);
      OtherSideStays(was, levels[..], base + i, base + SIZE - 1, lastChange, Base(!isBid), SIZE);
      ShiftedUpSlice(was, levels[..], base, SIZE, i, lastChange);
      assert was[base..base + SIZE] == old(Slots(isBid)) && levels[..][base..base + SIZE] == Slots(isBid);
    }

    method EraseVisible(i: nat, isBid: bool)
      requires Sized() && i < SIZE && SideLaid(isBid) && i < Filled(Slots(isBid))
      modifies this`lastChange, this`excessBidLevels, this`excessAskLevels, levels
      ensures lastChange == old(lastChange) + 1
      ensures ShiftedUp(old(Slots(isBid)), old(Excess(isBid)), Slots(isBid), i, lastChange)
      ensures Excess(isBid) == PulledIn(old(Slots(isBid)), old(Excess(isBid)))
      ensures Slots(!isBid) == old(Slots(!isBid)) && Excess(!isBid) == old(Excess(!isBid))
    {
      hide Laid, Packed, ShiftedUp, Restored, Filled, SlotsMovedUp;
      ghost var slots, excess := Slots(isBid), Excess(isBid);
      var last := Base(isBid) + SIZE - 1;
      lastChange := lastChange + 1;
      ShiftSlots(i, isBid);
      ghost var shifted := Slots(isBid);
      LastStays(slots, shifted, i, lastChange);
      assert shifted[SIZE - 1] == levels[last];
      if levels[last].price != INVALID_LEVEL_PRICE {
        RestoreLast(isBid);
      }
      RestoredIs(slots, excess, shifted, Slots(isBid), i, lastChange);
    }

    /** Erase the level at a place, visible or not. */
    method EraseLevel(at: nat, isBid: bool)
      requires Sized() && SideLaid(isBid) && at < |Levels(isBid)|
      modifies this`lastChange, this`excessBidLevels, this`excessAskLevels, levels
      ensures SideLaid(isBid) && Levels(isBid) == old(Levels(isBid))[..at] + old(Levels(isBid))[at + 1..]
      ensures Slots(!isBid) == old(Slots(!isBid)) && Excess(!isBid) == old(Excess(!isBid))
      ensures lastChange == if at < SIZE then old(lastChange) + 1 else old(lastChange)
      ensures at >= SIZE ==> Slots(isBid) == old(Slots(isBid))
      ensures forall j {:trigger Slots(isBid)[j]} :: 0 <= j < SIZE ==>
        (Slots(isBid)[j] == old(Slots(isBid))[j] && j != at) || Slots(isBid)[j].lastChange == old(lastChange) + 1
    {
      hide Filled, Datas, Laid, All, Ordered, Packed, ShiftedUp;
      ghost var slots, excess, all := Slots(isBid), Excess(isBid), Levels(isBid);
      LaidMeans(slots, excess, isBid);
      PlaceKind(slots, excess, isBid, at);
      RemovedOrdered(all, isBid, at);
      if at < SIZE {
        EraseVisible(at, isBid);
        ErasedAll(slots, excess, Slots(isBid), at, lastChange, isBid);
        MovedUpStamps(slots, excess, Slots(isBid), at, lastChange);
      } else {
        SetExcess(isBid, Excess(isBid)[..at - SIZE] + Excess(isBid)[at - SIZE + 1..]);
        ExcessRemoved(slots, excess, Excess(isBid), at - SIZE, at);
      }
      assert forall j :: 0 <= j < |Excess(isBid)| ==> Excess(isBid)[j].isExcess;
      IsLaid(Slots(isBid), Excess(isBid), isBid, all[..at] + all[at + 1..]);
    }

    function LevelAt(at: nat, isBid: bool): DepthLevel
      requires Sized() && at < SIZE + |Excess(isBid)|
      reads levels, this`excessBidLevels, this`excessAskLevels
    {
      if at < SIZE then levels[Base(isBid) + at] else Excess(isBid)[at - SIZE]
    }

    /** Change the level at a place, which keeps its price and its kind. */
    method SetLevel(at: nat, isBid: bool, level: DepthLevel)
      requires Sized() && SideLaid(isBid) && at < |Levels(isBid)|
      requires level.price == Levels(isBid)[at].price && level.isExcess == (at >= SIZE)
      modifies this`excessBidLevels, this`excessAskLevels, levels
      ensures SideLaid(isBid) && Levels(isBid) == old(Levels(isBid))[at := level.Data()]
      ensures Slots(!isBid) == old(Slots(!isBid)) && Excess(!isBid) == old(Excess(!isBid))
      ensures Slots(isBid) == if at < SIZE then old(Slots(isBid))[at := level] else old(Slots(isBid))
    {
      hide Filled, Datas, Laid, All, Ordered;
      ghost var slots, excess, all := Slots(isBid), Excess(isBid), Levels(isBid);
      LaidMeans(slots, excess, isBid);
      PlaceKind(slots, excess, isBid, at);
      ChangedOrdered(all, isBid, at, level.Data());
      if at < SIZE {
        levels[Base(isBid) + at] := level;
        assert Slots(isBid) == slots[at := level];
        SlotSet(slots, excess, at, level);
      } else {
        SetExcess(isBid, Excess(isBid)[at - SIZE := level]);
        ExcessSet(slots, excess, at - SIZE, level);
      }
      IsLaid(Slots(isBid), Excess(isBid), isBid, all[at := level.Data()]);
    }

    // ---- The operations ----

    /** What an operation on one side keeps of the rest. */
    twostate predicate OnlySide(isBid: bool)
      requires Sized()
      reads this, levels
    {
      && Slots(!isBid) == old(Slots(!isBid)) && Excess(!isBid) == old(Excess(!isBid)) &&
         Ignored(!isBid) == old(Ignored(!isBid))
      && OnlyStamped(old(Slots(isBid)), Slots(isBid), old(lastChange), lastChange) && old(lastChange) <= lastChange
      && lastPublishedChange == old(lastPublishedChange) && shownBids == old(shownBids) && shownAsks == old(shownAsks)
    }

    method AddOrder(price: nat, qty: nat, isBid: bool)
      requires Valid() && price != INVALID_LEVEL_PRICE
      modifies this`lastChange, this`excessBidLevels, this`excessAskLevels, levels
      ensures Valid() && OnlySide(isBid)
      ensures Side(isBid) == old(Side(isBid)).AddOrder(price, qty)
    {
      hide Filled, Datas, Laid, All, Ordered, Place, Find, MapOf, WithLevel, WithOrder, StampedSide, OnlyStamped,
           Populated;
      ghost var all, slots := Levels(isBid), Slots(isBid);
      LaidMeans(slots, Excess(isBid), isBid);
      OrderAdded(all, isBid, price, qty, Ignored(isBid));
      var lastChangeCopy := lastChange;
      var at := FindOrCreateLevel(price, isBid);
      ghost var found := Slots(isBid);
      var level := AddToLevel(at, qty, isBid, lastChangeCopy);
      AddedLevels(all, Levels(isBid), isBid, price, qty, at);
      AddedStamps(slots, found, Slots(isBid), at, level, lastChangeCopy, lastChange);
      SideChanged(isBid);
    }

    method AddToLevel(at: nat, qty: nat, isBid: bool, lastChangeCopy: nat) returns (level: DepthLevel)
      requires Sized() && SideLaid(isBid) && at < |Levels(isBid)|
      modifies this`lastChange, this`excessBidLevels, this`excessAskLevels, levels
      ensures SideLaid(isBid)
      ensures var d := old(Levels(isBid))[at];
              Levels(isBid) == old(Levels(isBid))[at := Datum(d.price, Level(d.level.count + 1, d.level.qty + qty))]
      ensures Slots(!isBid) == old(Slots(!isBid)) && Excess(!isBid) == old(Excess(!isBid))
      ensures if at < SIZE then
              lastChange == lastChangeCopy + 1 == level.lastChange && Slots(isBid) == old(Slots(isBid))[at := level]
              else lastChange == old(lastChange) && Slots(isBid) == old(Slots(isBid))
    {
      hide Filled, Datas, Laid, All;
      PlaceKind(Slots(isBid), Excess(isBid), isBid, at);
      level := LevelAt(at, isBid).AddOrder(qty);
      if !level.isExcess {
        // a visible level: the depth has changed
        lastChange := lastChangeCopy + 1;
        level := level.Stamped(lastChangeCopy + 1);
      }
      SetLevel(at, isBid, level);
    }

    method IgnoreFillQty(qty: nat, isBid: bool) returns (thrown: bool)
      requires Valid()
      modifies this`ignoreBidFillQty, this`ignoreAskFillQty
      ensures Valid() && Side(!isBid) == old(Side(!isBid))
      ensures thrown <==> old(Side(isBid)).IgnoreFill(qty).None?
      ensures Side(isBid) == if thrown then old(Side(isBid)) else old(Side(isBid)).IgnoreFill(qty).value
    {
      hide MapOf, Laid, StampedSide, Populated, All;
      thrown := Ignored(isBid) != 0;
      if !thrown {
        if isBid {
          ignoreBidFillQty := qty;
        } else {
          ignoreAskFillQty := qty;
        }
      }
    }

    /** Change the quantity and count of a level that stays, and stamp it. */
    method ChangeLevel(at: nat, isBid: bool, count: nat, qty: nat)
      requires Valid() && at < |Levels(isBid)| && count > 0
      modifies this`lastChange, this`excessBidLevels, this`excessAskLevels, levels
      ensures Valid() && OnlySide(isBid)
      ensures Side(isBid)
              == old(Side(isBid)).(levels := old(Side(isBid)).levels[old(Levels(isBid))[at].price := Level(count, qty)])
    {
      hide Filled, Datas, Laid, All, Ordered, Find, MapOf, StampedSide, OnlyStamped, Populated;
      ghost var all, slots := Levels(isBid), Slots(isBid);
      LaidMeans(slots, Excess(isBid), isBid);
      PlaceKind(slots, Excess(isBid), isBid, at);
      LevelChanged(all, isBid, at, Level(count, qty));
      lastChange := lastChange + 1;
      var level := LevelAt(at, isBid).(count := count, qty := qty, lastChange := lastChange);
      SetLevel(at, isBid, level);
      ChangedStamps(slots, Slots(isBid), at, level, old(lastChange));
      SideChanged(isBid);
    }

    /** The last order of a level: the level goes. */
    method CloseLevel(at: nat, isBid: bool)
      requires Valid() && at < |Levels(isBid)|
      modifies this`lastChange, this`excessBidLevels, this`excessAskLevels, levels
      ensures Valid() && OnlySide(isBid)
      ensures Side(isBid) == old(Side(isBid)).(levels := old(Side(isBid)).levels - {old(Levels(isBid))[at].price})
    {
      hide Filled, Datas, Laid, All, Ordered, Find, MapOf, StampedSide, OnlyStamped, Populated;
      ghost var all, slots := Levels(isBid), Slots(isBid);
      LaidMeans(slots, Excess(isBid), isBid);
      PlaceKind(slots, Excess(isBid), isBid, at);
      LevelErased(all, isBid, at);
      SetLevel(at, isBid, LevelAt(at, isBid).(count := 0, qty := 0));
      ghost var reset := Slots(isBid);
      ChangedThenRemoved(all, at, Levels(isBid)[at]);
      EraseLevel(at, isBid);
      ErasedStamps(slots, reset, Slots(isBid), at, old(lastChange), lastChange);
      SideChanged(isBid);
    }

    /** `thrown` stands for the exception of a level that holds too little; its count has then
        already been taken down. */
    method CloseOrder(price: nat, openQty: nat, isBid: bool) returns (erased: bool, thrown: bool)
      requires Valid() && price in MapOf(Levels(isBid))
      modifies this`lastChange, this`excessBidLevels, this`excessAskLevels, levels
      ensures thrown <==> old(Side(isBid)).CloseOrder(price, openQty).None?
      ensures !thrown ==> Valid() && OnlySide(isBid) && Side(isBid) == old(Side(isBid)).CloseOrder(price, openQty).value
      ensures !thrown ==> (erased <==> price !in MapOf(Levels(isBid)))
    {
      hide Filled, Datas, Laid, All, Ordered, MapOf, Find, StampedSide, OnlyStamped, Populated;
      var at := FindLevel(price, isBid);
      PlaceKind(Slots(isBid), Excess(isBid), isBid, at);
      MapLookup(Levels(isBid), price);
      FindPrice(Levels(isBid), price);
      var level := LevelAt(at, isBid);
      erased, thrown := false, false;
      if level.count == 0 {
        thrown := true;
      } else if level.count == 1 {
        CloseLevel(at, isBid);
        erased := true;
      } else if level.qty >= openQty {
        ChangeLevel(at, isBid, level.count - 1, level.qty - openQty);
      } else {
        SetLevel(at, isBid, level.(count := level.count - 1));
        thrown := true;
      }
    }

    /** A quantity stays within its unsigned range. */
    method ChangeQtyOrder(price: nat, qtyDelta: int, isBid: bool)
      requires Valid() && Side(isBid).ChangeQty(price, qtyDelta).Some?
      modifies this`lastChange, this`excessBidLevels, this`excessAskLevels, levels
      ensures Valid() && OnlySide(isBid)
      ensures Side(isBid) == old(Side(isBid)).ChangeQty(price, qtyDelta).value
    {
      hide Filled, Datas, Laid, All, Ordered, MapOf, Find, StampedSide, OnlyStamped;
      if qtyDelta != 0 {
        var at := FindLevel(price, isBid);
        PlaceKind(Slots(isBid), Excess(isBid), isBid, at);
        MapLookup(Levels(isBid), price);
        FindPrice(Levels(isBid), price);
        var level := LevelAt(at, isBid);
        ChangeLevel(at, isBid, level.count, level.qty + qtyDelta);
      } else {
        SameStamps(Slots(isBid), lastChange, lastChange);
      }
    }

    /** A fill the depth was told to ignore is counted off; any other closes or reduces. */
    method FillOrder(price: nat, fillQty: nat, filled: bool, isBid: bool) returns (thrown: bool)
      requires Valid() && Side(isBid).FillOrder(price, fillQty, filled).Some?
      modifies this`lastChange, this`excessBidLevels, this`excessAskLevels, this`ignoreBidFillQty,
               this`ignoreAskFillQty, levels
      ensures !thrown && Valid() && Side(!isBid) == old(Side(!isBid))
      ensures Side(isBid) == old(Side(isBid)).FillOrder(price, fillQty, filled).value
      ensures OnlyStamped(old(Slots(isBid)), Slots(isBid), old(lastChange), lastChange)
    {
      hide Filled, Datas, Laid, All, Ordered, MapOf, Find, StampedSide, OnlyStamped, Populated;
      thrown := false;
      if isBid && ignoreBidFillQty != 0 {
        ignoreBidFillQty := ignoreBidFillQty - fillQty;
        SameStamps(Slots(isBid), lastChange, lastChange);
      } else if !isBid && ignoreAskFillQty != 0 {
        ignoreAskFillQty := ignoreAskFillQty - fillQty;
        SameStamps(Slots(isBid), lastChange, lastChange);
      } else if filled {
        var erased;
        erased, thrown := CloseOrder(price, fillQty, isBid);
      } else {
        ChangeQtyOrder(price, 0 - fillQty, isBid);
      }
    }

    method ReplaceOrder(currentPrice: nat, newPrice: nat, currentQty: nat, newQty: nat, isBid: bool)
        returns (erased: bool, thrown: bool)
      requires Valid() && Side(isBid).ReplaceOrder(currentPrice, newPrice, currentQty, newQty).Some?
      modifies this`lastChange, this`excessBidLevels, this`excessAskLevels, levels
      ensures !thrown && Valid() && OnlySide(isBid)
      ensures Side(isBid) == old(Side(isBid)).ReplaceOrder(currentPrice, newPrice, currentQty, newQty).value
    {
      hide Filled, Datas, Laid, All, Ordered, MapOf, Find, StampedSide, OnlyStamped, Populated;
      erased, thrown := false, false;
      if currentPrice == newPrice {
        ChangeQtyOrder(currentPrice, newQty - currentQty, isBid);
      } else {
        // add the new quantity first, and then take the old one away
        ghost var slots, change := Slots(isBid), lastChange;
        AddOrder(newPrice, newQty, isBid);
        ghost var slots1, change1 := Slots(isBid), lastChange;
        erased, thrown := CloseOrder(currentPrice, currentQty, isBid);
        OnlyStampedCompose(slots, slots1, Slots(isBid), change, change1, lastChange);
      }
    }

    /** The stamps stay right when one side has changed. */
    twostate lemma SideChanged(isBid: bool)
      requires old(Valid()) && Sized() && OnlySide(isBid) && SideLaid(isBid) && Populated(Levels(isBid))
      ensures Valid()
    {
      hide Laid, StampedSide, OnlyStamped, All, Populated;
      SameStamps(old(Slots(!isBid)), old(lastChange), lastChange);
      if isBid {
        StampsKept(old(Slots(true)), Slots(true), shownBids, lastPublishedChange, old(lastChange), lastChange);
        StampsKept(old(Slots(false)), Slots(false), shownAsks, lastPublishedChange, old(lastChange), lastChange);
      } else {
        StampsKept(old(Slots(false)), Slots(false), shownAsks, lastPublishedChange, old(lastChange), lastChange);
        StampsKept(old(Slots(true)), Slots(true), shownBids, lastPublishedChange, old(lastChange), lastChange);
      }
    }
  }

  lemma AddedStamps(slots: seq<DepthLevel>, found: seq<DepthLevel>, slots': seq<DepthLevel>, at: nat, level: DepthLevel,
                    change: nat, change': nat)
    requires |slots| == |found|
    requires forall j {:trigger found[j]} :: 0 <= j < |found| && j != at ==>
             found[j] == slots[j] || found[j].lastChange == change + 1
    requires if at < |slots| then slots' == found[at := level] && level.lastChange == change' == change + 1
             else slots' == slots && change' == change
    ensures OnlyStamped(slots, slots', change, change')
  {
  }

  /** With nothing changed since the last publication, everything is as it was shown. */
  lemma UnchangedIsShown(slots: seq<DepthLevel>, shown: seq<Datum>, published: nat, j: nat)
    requires StampedSide(slots, shown, published, published) && j < |slots|
    ensures slots[j].Data() == shown[j]
  {
  }

  lemma PublishedStamps(slots: seq<DepthLevel>, shown: seq<Datum>, published: nat, change: nat)
    requires StampedSide(slots, shown, published, change)
    ensures StampedSide(slots, Datas(slots), change, change)
  {
  }

  lemma ChangedStamps(slots: seq<DepthLevel>, slots': seq<DepthLevel>, at: nat, level: DepthLevel, change: nat)
    requires level.lastChange == change + 1 && slots' == if at < |slots| then slots[at := level] else slots
    ensures OnlyStamped(slots, slots', change, change + 1)
  {
  }

  lemma ErasedStamps(slots: seq<DepthLevel>, reset: seq<DepthLevel>, slots': seq<DepthLevel>, at: nat, change: nat,
                     change': nat)
    requires |slots| == |reset| == |slots'| && change' == (if at < |slots| then change + 1 else change)
    requires forall j :: 0 <= j < |slots| && j != at ==> reset[j] == slots[j]
    requires forall j {:trigger slots'[j]} :: 0 <= j < |slots| ==>
             (slots'[j] == reset[j] && j != at) || slots'[j].lastChange == change + 1
    requires at >= |slots| ==> slots' == slots
    ensures OnlyStamped(slots, slots', change, change')
  {
  }

  lemma ChangedThenRemoved(all: seq<Datum>, at: nat, d: Datum)
    requires at < |all|
    ensures all[at := d][..at] + all[at := d][at + 1..] == all[..at] + all[at + 1..]
  {
  }

  lemma FindPrice(s: seq<Datum>, price: nat)
    requires Find(s, price) < |s|
    ensures s[Find(s, price)].price == price
  {
  }

  lemma BlankSide(slots: seq<DepthLevel>, buy: bool)
    requires forall j :: 0 <= j < |slots| ==> slots[j] == BLANK
    ensures Laid(slots, [], buy) && All(slots, []) == [] && MapOf(All(slots, [])) == map[]
  {
    FilledIs(slots, 0);
    assert MapOf([]) == map[];
  }

  lemma SameStamps(slots: seq<DepthLevel>, change: nat, change': nat)
    requires change <= change'
    ensures OnlyStamped(slots, slots, change, change')
  {
  }

  /** Adding to the level that was found or created. */
  lemma AddedLevels(all: seq<Datum>, all': seq<Datum>, buy: bool, price: nat, qty: nat, at: nat)
    requires at == Place(all, buy, price) < |WithLevel(all, buy, price)|
    requires var d := WithLevel(all, buy, price)[at];
             all' == WithLevel(all, buy, price)[at := Datum(d.price, Level(d.level.count + 1, d.level.qty + qty))]
    ensures all' == WithOrder(all, buy, price, qty)
  {
  }

  /** A shift of a stretch of the array is a shift of its slice. */
  lemma ShiftedSlice(was: seq<DepthLevel>, now: seq<DepthLevel>, base: nat, size: nat, i: nat, price: nat, change: nat)
    requires i < size && base + size <= |was| == |now|
    requires forall j {:trigger now[j]} :: base <= j < base + size ==>
      now[j] == if base + i < j then MovedDown(was[j], was[j - 1], change) else if j == base + i then
          was[j].Init(price, false) else was[j]
    ensures ShiftedDown(was[base..base + size], now[base..base + size], i, price, change)
  {
    var s, t := was[base..base + size], now[base..base + size];
    forall j | 0 <= j < size
      ensures t[j] == if i < j then MovedDown(s[j], s[j - 1], change) else if j == i then s[j].Init(price, false)
              else s[j]
    {
      assert t[j] == now[base + j] && s[j] == was[base + j];
      if i < j {
        assert s[j - 1] == was[base + j - 1];
      }
    }
    assert t[i] == s[i].Init(price, false);
  }

  /** Everything from `first` on up to `last` has moved up by one, blanks excepted. */
  ghost predicate UpTo(was: seq<DepthLevel>, now: seq<DepthLevel>, first: nat, last: nat, change: nat) {
    && last < |was| == |now|
    && forall j {:trigger now[j]} :: 0 <= j < |now| ==>
         now[j] == if first <= j < last && was[j].price != INVALID_LEVEL_PRICE then MovedUp(was[j], was[j + 1], change)
             else was[j]
  }

  lemma AllShifted(was: seq<DepthLevel>, now: seq<DepthLevel>, first: nat, last: nat, change: nat)
    requires last < |was| == |now|
    requires forall j {:trigger now[j]} :: 0 <= j < |now| ==>
      now[j] == if first <= j < last && was[j].price != INVALID_LEVEL_PRICE then MovedUp(was[j], was[j + 1], change)
          else was[j]
    ensures UpTo(was, now, first, last, change)
  {
  }

  lemma OtherSideStays(was: seq<DepthLevel>, now: seq<DepthLevel>, first: nat, last: nat, change: nat, base: nat,
                       size: nat)
    requires UpTo(was, now, first, last, change) && base + size <= |was| && (last < base || base + size <= first)
    ensures now[base..base + size] == was[base..base + size]
  {
    SameSlice(was, now, first, last, base, size);
  }

  lemma ShiftedUpSlice(was: seq<DepthLevel>, now: seq<DepthLevel>, base: nat, size: nat, i: nat, change: nat)
    requires i < size && base + size <= |was| && UpTo(was, now, base + i, base + size - 1, change)
    ensures SlotsMovedUp(was[base..base + size], now[base..base + size], i, change)
  {
    var s, t := was[base..base + size], now[base..base + size];
    forall j | 0 <= j < size
      ensures t[j] == if i <= j < size - 1 && s[j].price != INVALID_LEVEL_PRICE then MovedUp(s[j], s[j + 1], change)
              else s[j]
    {
      assert t[j] == now[base + j] && s[j] == was[base + j];
      if j < size - 1 {
        assert s[j + 1] == was[base + j + 1];
      }
    }
  }

  /** The slots once those from `i` on have moved up, before the last one is restored. */
  ghost predicate SlotsMovedUp(s: seq<DepthLevel>, t: seq<DepthLevel>, i: nat, change: nat) {
    && |s| == |t|
    && forall j {:trigger t[j]} :: 0 <= j < |s| ==>
         t[j] == if i <= j < |s| - 1 && s[j].price != INVALID_LEVEL_PRICE then MovedUp(s[j], s[j + 1], change) else s[j]
  }

  lemma LastStays(s: seq<DepthLevel>, t: seq<DepthLevel>, i: nat, change: nat)
    requires i < |s| && SlotsMovedUp(s, t, i, change)
    ensures |t| == |s| && t[|s| - 1] == s[|s| - 1]
  {
  }

  lemma RestoredIs(slots: seq<DepthLevel>, excess: seq<DepthLevel>, shifted: seq<DepthLevel>, slots': seq<DepthLevel>,
                   i: nat, change: nat)
    requires i < |slots| && SlotsMovedUp(slots, shifted, i, change)
    requires var last := |slots| - 1;
             slots' == if shifted[last].price != INVALID_LEVEL_PRICE then
                 shifted[last := Restored(shifted[last], excess, change)] else shifted
    ensures ShiftedUp(slots, excess, slots', i, change)
  {
    forall j | 0 <= j < |slots| - 1
      ensures slots'[j] == if i <= j && slots[j].price != INVALID_LEVEL_PRICE then
              MovedUp(slots[j], slots[j + 1], change) else slots[j]
    {
      assert slots'[j] == shifted[j];
    }
    assert shifted[|slots| - 1] == slots[|slots| - 1];
  }

  /** A place in the list is a visible slot in use, or a place in the excess. */
  lemma PlaceKind(slots: seq<DepthLevel>, excess: seq<DepthLevel>, buy: bool, at: nat)
    requires Laid(slots, excess, buy) && at < |All(slots, excess)|
    ensures if at < |slots| then at < Filled(slots) && All(slots, excess)[at] == slots[at].Data() && !slots[at].isExcess
            else Filled(slots) == |slots| && at - |slots| < |excess| &&
                 All(slots, excess)[at] == excess[at - |slots|].Data() && excess[at - |slots|].isExcess
  {
    hide Filled, Datas;
    AllAt(slots, excess, at);
  }

  lemma SameSlice(was: seq<DepthLevel>, now: seq<DepthLevel>, first: nat, last: nat, base: nat, size: nat)
    requires base + size <= |was| == |now| && (last < base || base + size <= first)
    requires forall j {:trigger now[j]} :: 0 <= j < |now| && (j < first || last < j) ==> now[j] == was[j]
    ensures now[base..base + size] == was[base..base + size]
  {
  }

  lemma IsThere(s: seq<Datum>, buy: bool, price: nat)
    requires Place(s, buy, price) < |s| && s[Place(s, buy, price)].price == price
    ensures WithLevel(s, buy, price) == s
  {
  }

  lemma WithLevelAtEnd(s: seq<Datum>, buy: bool, price: nat)
    requires Place(s, buy, price) == |s|
    ensures WithLevel(s, buy, price) == s + [Datum(price, Level(0, 0))]
  {
  }

  lemma MovedDownStamps(slots: seq<DepthLevel>, slots': seq<DepthLevel>, i: nat, price: nat, change: nat)
    requires Packed(slots) && i < Filled(slots) && ShiftedDown(slots, slots', i, price, change)
    ensures forall j {:trigger slots'[j]} :: 0 <= j < |slots| && j != i ==>
            slots'[j] == slots[j] || slots'[j].lastChange == change
  {
    hide Filled;
    forall j | i < j < |slots|
      ensures slots'[j] == slots[j] || slots'[j].lastChange == change
    {
      assert slots'[j] == MovedDown(slots[j], slots[j - 1], change);
      if slots[j - 1].price == INVALID_LEVEL_PRICE {
        assert slots[j - 1].Data() == BLANK.Data() && slots[j].Data() == BLANK.Data();
      }
    }
  }

  /** Where the two searches end is where the price is. */
  lemma FoundLevel(slots: seq<DepthLevel>, excess: seq<DepthLevel>, buy: bool, price: nat, k: nat, at: nat)
    requires Laid(slots, excess, buy) && price in MapOf(All(slots, excess))
    requires k <= |slots| && (k < |slots| ==> slots[k].price == price && at == k)
    requires forall j {:trigger slots[j]} :: 0 <= j < k ==> slots[j].price != price
    requires k == |slots| ==> |slots| <= at && var e := at - |slots|;
             && e <= |excess| && (forall j :: 0 <= j < e ==> Better(buy, excess[j].price, price)) &&
                (e < |excess| ==> !Better(buy, excess[e].price, price))
    ensures at == Find(All(slots, excess), price) < |All(slots, excess)|
  {
    hide Filled, Datas, Find;
    var all := All(slots, excess);
    MapLookup(all, price);
    var f := Find(all, price);
    AllAt(slots, excess, f);
    assert all[f].price != INVALID_LEVEL_PRICE;
    if k < |slots| {
      VisibleIsListed(slots, excess, k);
      SamePriceSamePlace(all, buy, k, f);
    } else {
      assert f >= |slots|;
      ExcessPlaceIsFind(slots, excess, buy, price, at - |slots|, f);
    }
  }

  lemma VisibleIsListed(slots: seq<DepthLevel>, excess: seq<DepthLevel>, k: nat)
    requires Packed(slots) && k < |slots| && slots[k].price != INVALID_LEVEL_PRICE
    ensures k < Filled(slots) && k < |All(slots, excess)| && All(slots, excess)[k] == slots[k].Data()
  {
    var l := slots[k];
    assert k >= Filled(slots) ==> l.Data() == BLANK.Data();
  }

  lemma ExcessPlaceIsFind(slots: seq<DepthLevel>, excess: seq<DepthLevel>, buy: bool, price: nat, e: nat, f: nat)
    requires Laid(slots, excess, buy) && |slots| <= f < |All(slots, excess)| && All(slots, excess)[f].price == price
    requires e <= |excess| && (forall j :: 0 <= j < e ==> Better(buy, excess[j].price, price))
    requires (e < |excess| ==> !Better(buy, excess[e].price, price))
    ensures f == |slots| + e
  {
    hide Filled, Datas;
    var all := All(slots, excess);
    AllAt(slots, excess, f);
    assert |slots| + e <= f;
    AllAt(slots, excess, |slots| + e);
    var there, here := all[|slots| + e].price, all[f].price;
    assert |slots| + e < f ==> Better(buy, there, here);
  }

  lemma LastIsFull(slots: seq<DepthLevel>, excess: seq<DepthLevel>, buy: bool)
    requires Laid(slots, excess, buy) && slots != [] && slots[|slots| - 1].price != INVALID_LEVEL_PRICE
    ensures Filled(slots) == |slots|
  {
  }

  lemma FirstExcessIsWorse(slots: seq<DepthLevel>, excess: seq<DepthLevel>, buy: bool)
    requires Laid(slots, excess, buy) && slots != [] && Filled(slots) == |slots|
    ensures excess != [] ==> Better(buy, slots[|slots| - 1].price, excess[0].price)
  {
    if excess != [] {
      AllAt(slots, excess, |slots| - 1);
      AllAt(slots, excess, |slots|);
      var all := All(slots, excess);
      assert Better(buy, all[|slots| - 1].price, all[|slots|].price);
    }
  }
}
