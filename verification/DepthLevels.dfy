/** The levels of one side of the depth: the price-ordered list that the visible slots and
    the excess together stand for, and the map from prices it amounts to
    (src/book/depth_level.h, src/book/depth.h). */
module DepthLevels {
  import opened DepthSpec

  /** A price of zero marks a blank slot. */
  const INVALID_LEVEL_PRICE: nat := 0

  datatype DepthLevel = DepthLevel(price: nat, count: nat, qty: nat, isExcess: bool, lastChange: nat) {
    /** Assignment keeps the excess mark, and the stamp when a blank is assigned. */
    function Assign(rhs: DepthLevel): DepthLevel {
      DepthLevel(rhs.price, rhs.count, rhs.qty, isExcess, if rhs.price != INVALID_LEVEL_PRICE then rhs.lastChange
                 else lastChange)
    }

    function Init(price': nat, isExcess': bool): DepthLevel {
      DepthLevel(price', 0, 0, isExcess', lastChange)
    }

    function Stamped(change: nat): DepthLevel {
      this.(lastChange := change)
    }

    function AddOrder(q: nat): DepthLevel {
      this.(count := count + 1, qty := qty + q)
    }

    function Data(): Datum {
      Datum(price, Level(count, qty))
    }

    predicate ChangedSince(published: nat) {
      lastChange > published
    }
  }

  const BLANK := DepthLevel(INVALID_LEVEL_PRICE, 0, 0, false, 0)

  /** What a level says, without its marks. */
  datatype Datum = Datum(price: nat, level: Level)

  function Datas(s: seq<DepthLevel>): (d: seq<Datum>)
    ensures |d| == |s|
    ensures forall k :: 0 <= k < |s| ==> d[k] == s[k].Data()
  {
    if s == [] then [] else [s[0].Data()] + Datas(s[1..])
  }

  // ---- Ordered lists of levels ----

  predicate Better(buy: bool, a: nat, b: nat) {
    if buy then a > b else a < b
  }

  /** Best price first, no price twice, no blank. */
  ghost predicate Ordered(s: seq<Datum>, buy: bool) {
    && (forall i, j :: 0 <= i < j < |s| ==> Better(buy, s[i].price, s[j].price))
    && (forall i :: 0 <= i < |s| ==> s[i].price != INVALID_LEVEL_PRICE)
  }

  /** Every level that is kept has an order. */
  ghost predicate Populated(s: seq<Datum>) {
    forall i :: 0 <= i < |s| ==> s[i].level.count > 0
  }

  function Find(s: seq<Datum>, price: nat): (k: nat)
    ensures k <= |s|
    ensures k < |s| ==> s[k].price == price
    ensures forall j :: 0 <= j < k ==> s[j].price != price
  {
    if s == [] || s[0].price == price then 0 else 1 + Find(s[1..], price)
  }

  lemma FindAt(s: seq<Datum>, buy: bool, k: nat)
    requires Ordered(s, buy) && k < |s|
    ensures Find(s, s[k].price) == k
  {
  }

  ghost function PricesOf(s: seq<Datum>): set<nat> {
    set k | 0 <= k < |s| :: s[k].price
  }

  lemma PriceIsFound(s: seq<Datum>, price: nat)
    ensures price in PricesOf(s) <==> Find(s, price) < |s|
  {
    var k := Find(s, price);
    if k < |s| {
      assert s[k].price in PricesOf(s);
    }
  }

  /** The list as a map from prices. */
  ghost function MapOf(s: seq<Datum>): map<nat, Level> {
    map p | p in PricesOf(s) && Find(s, p) < |s| :: s[Find(s, p)].level
  }

  lemma MapLookup(s: seq<Datum>, price: nat)
    ensures price in MapOf(s) <==> Find(s, price) < |s|
    ensures price in MapOf(s) ==> MapOf(s)[price] == s[Find(s, price)].level
  {
    PriceIsFound(s, price);
  }

  /** A list is a map when every lookup agrees. */
  lemma IsMap(s: seq<Datum>, m: map<nat, Level>)
    requires forall p :: p in m <==> Find(s, p) < |s|
    requires forall p :: p in m ==> m[p] == s[Find(s, p)].level
    ensures MapOf(s) == m
  {
    forall p
      ensures p in MapOf(s) <==> p in m
      ensures p in m ==> MapOf(s)[p] == m[p]
    {
      MapLookup(s, p);
    }
  }

  lemma MapAt(s: seq<Datum>, buy: bool, k: nat)
    requires Ordered(s, buy) && k < |s|
    ensures s[k].price in MapOf(s) && MapOf(s)[s[k].price] == s[k].level
  {
    FindAt(s, buy, k);
    MapLookup(s, s[k].price);
  }

  lemma {:induction false} FindSkips(a: seq<Datum>, b: seq<Datum>, price: nat)
    ensures Find(a + b, price) == if Find(a, price) < |a| then Find(a, price) else |a| + Find(b, price)
  {
    if a == [] {
      assert a + b == b;
    } else if a[0].price != price {
      assert (a + b)[1..] == a[1..] + b;
      FindSkips(a[1..], b, price);
    }
  }

  /** A level in the middle is found by its own price only. */
  lemma FindAround(a: seq<Datum>, d: Datum, b: seq<Datum>, price: nat)
    requires price != d.price
    ensures var s, t := a + b, a + [d] + b;
            && (Find(s, price) < |s| <==> Find(t, price) < |t|)
            && (Find(s, price) < |s| ==> s[Find(s, price)] == t[Find(t, price)])
  {
    FindSkips(a, b, price);
    FindSkips(a + [d], b, price);
    FindSkips(a, [d], price);
  }

  lemma FindMiddle(a: seq<Datum>, d: Datum, b: seq<Datum>)
    requires Find(a, d.price) == |a|
    ensures Find(a + [d] + b, d.price) == |a|
  {
    FindSkips(a + [d], b, d.price);
    FindSkips(a, [d], d.price);
  }

  lemma MapAround(a: seq<Datum>, d: Datum, b: seq<Datum>)
    requires Find(a, d.price) == |a|
    ensures MapOf(a + [d] + b) == MapOf(a + b)[d.price := d.level]
  {
    hide MapOf, Find;
    var t, m := a + [d] + b, MapOf(a + b)[d.price := d.level];
    forall p: nat
      ensures p in m <==> Find(t, p) < |t|
      ensures p in m ==> m[p] == t[Find(t, p)].level
    {
      MapLookup(a + b, p);
      if p == d.price {
        FindMiddle(a, d, b);
      } else {
        FindAround(a, d, b, p);
      }
    }
    IsMap(t, m);
  }

  lemma MapInsert(s: seq<Datum>, k: nat, d: Datum)
    requires k <= |s| && Find(s, d.price) == |s|
    ensures MapOf(s[..k] + [d] + s[k..]) == MapOf(s)[d.price := d.level]
  {
    hide Find, MapOf;
    var a, b := s[..k], s[k..];
    assert a + b == s;
    FindSkips(a, b, d.price);
    MapAround(a, d, b);
  }

  lemma MapUpdate(s: seq<Datum>, k: nat, l: Level)
    requires k < |s| && k == Find(s, s[k].price)
    ensures MapOf(s[k := Datum(s[k].price, l)]) == MapOf(s)[s[k].price := l]
  {
    hide MapOf;
    var t, price := s[k := Datum(s[k].price, l)], s[k].price;
    forall p: nat
      ensures p in MapOf(s)[price := l] <==> Find(t, p) < |t|
      ensures Find(t, p) < |t| ==> MapOf(s)[price := l][p] == t[Find(t, p)].level
    {
      MapLookup(s, p);
      SamePrices(s, t, p);
    }
    IsMap(t, MapOf(s)[price := l]);
  }

  lemma {:induction false} SamePrices(s: seq<Datum>, t: seq<Datum>, price: nat)
    requires |s| == |t| && forall i :: 0 <= i < |s| ==> s[i].price == t[i].price
    ensures Find(s, price) == Find(t, price)
  {
    if s != [] {
      SamePrices(s[1..], t[1..], price);
    }
  }

  lemma AbsentAround(s: seq<Datum>, buy: bool, k: nat)
    requires Ordered(s, buy) && k < |s|
    ensures Find(s[..k], s[k].price) == k && Find(s[k + 1..], s[k].price) == |s| - k - 1
  {
  }

  lemma MapErase(s: seq<Datum>, buy: bool, k: nat)
    requires Ordered(s, buy) && k < |s|
    ensures MapOf(s[..k] + s[k + 1..]) == MapOf(s) - {s[k].price}
  {
    hide Find, MapOf, Ordered;
    var a, d, b := s[..k], s[k], s[k + 1..];
    assert a + [d] + b == s;
    AbsentAround(s, buy, k);
    FindSkips(a, b, d.price);
    MapLookup(a + b, d.price);
    MapAround(a, d, b);
  }

  // ---- One side: visible slots and excess ----

  /** How many slots are in use: up to the first blank. */
  function Filled(slots: seq<DepthLevel>): (n: nat)
    ensures n <= |slots|
    ensures forall j :: 0 <= j < n ==> slots[j].price != INVALID_LEVEL_PRICE
    ensures n < |slots| ==> slots[n].price == INVALID_LEVEL_PRICE
  {
    if slots == [] || slots[0].price == INVALID_LEVEL_PRICE then 0 else 1 + Filled(slots[1..])
  }

  lemma FilledIs(slots: seq<DepthLevel>, n: nat)
    requires n <= |slots| && forall j :: 0 <= j < n ==> slots[j].price != INVALID_LEVEL_PRICE
    requires n < |slots| ==> slots[n].price == INVALID_LEVEL_PRICE
    ensures Filled(slots) == n
  {
  }

  /** Blank slots are at the tail, and hold nothing. */
  ghost predicate Packed(slots: seq<DepthLevel>) {
    && (forall j {:trigger slots[j]} :: Filled(slots) <= j < |slots| ==> slots[j].Data() == BLANK.Data())
    && (forall j :: 0 <= j < |slots| ==> !slots[j].isExcess)
  }

  /** All levels of a side, the visible ones first. */
  function All(slots: seq<DepthLevel>, excess: seq<DepthLevel>): seq<Datum> {
    Datas(slots[..Filled(slots)]) + Datas(excess)
  }

  /** The visible slots hold the best prices and the excess holds the rest, which there is
      only when every slot is in use. */
  ghost predicate Laid(slots: seq<DepthLevel>, excess: seq<DepthLevel>, buy: bool) {
    && Packed(slots)
    && (forall j :: 0 <= j < |excess| ==> excess[j].isExcess)
    && (excess != [] ==> Filled(slots) == |slots|)
    && Ordered(All(slots, excess), buy)
  }

  lemma AllAt(slots: seq<DepthLevel>, excess: seq<DepthLevel>, k: nat)
    requires k < |All(slots, excess)| && (excess != [] ==> Filled(slots) == |slots|)
    ensures if k < |slots| then k < Filled(slots) && All(slots, excess)[k] == slots[k].Data()
            else k - |slots| < |excess| && All(slots, excess)[k] == excess[k - |slots|].Data()
  {
  }

  lemma IsLaid(slots: seq<DepthLevel>, excess: seq<DepthLevel>, buy: bool, all: seq<Datum>)
    requires Packed(slots) && (forall j :: 0 <= j < |excess| ==> excess[j].isExcess)
    requires (excess != [] ==> Filled(slots) == |slots|)
    requires All(slots, excess) == all && Ordered(all, buy)
    ensures Laid(slots, excess, buy)
  {
  }

  lemma LaidMeans(slots: seq<DepthLevel>, excess: seq<DepthLevel>, buy: bool)
    requires Laid(slots, excess, buy)
    ensures Packed(slots) && (forall j :: 0 <= j < |excess| ==> excess[j].isExcess)
    ensures (excess != [] ==> Filled(slots) == |slots|)
    ensures Ordered(All(slots, excess), buy)
  {
  }

  lemma SamePriceSamePlace(s: seq<Datum>, buy: bool, i: nat, j: nat)
    requires Ordered(s, buy) && i < |s| && j < |s| && s[i].price == s[j].price
    ensures i == j
  {
  }

  /** Where a price belongs. */
  function Place(s: seq<Datum>, buy: bool, price: nat): (k: nat)
    ensures k <= |s|
    ensures forall j :: 0 <= j < k ==> Better(buy, s[j].price, price)
    ensures k < |s| ==> !Better(buy, s[k].price, price)
  {
    if s == [] || !Better(buy, s[0].price, price) then 0 else 1 + Place(s[1..], buy, price)
  }

  /** The list with a level for this price. */
  function WithLevel(s: seq<Datum>, buy: bool, price: nat): seq<Datum> {
    var k := Place(s, buy, price);
    if k < |s| && s[k].price == price then s else s[..k] + [Datum(price, Level(0, 0))] + s[k..]
  }

  lemma PlaceIs(s: seq<Datum>, buy: bool, price: nat, k: nat)
    requires k <= |s| && (forall j :: 0 <= j < k ==> Better(buy, s[j].price, price))
    requires (k < |s| ==> !Better(buy, s[k].price, price))
    ensures Place(s, buy, price) == k
  {
  }

  lemma PlaceOfPresent(s: seq<Datum>, buy: bool, k: nat)
    requires Ordered(s, buy) && k < |s|
    ensures Place(s, buy, s[k].price) == k == Find(s, s[k].price)
  {
    FindAt(s, buy, k);
    PlaceIs(s, buy, s[k].price, k);
  }

  lemma WithLevelOrdered(s: seq<Datum>, buy: bool, price: nat)
    requires Ordered(s, buy) && price != INVALID_LEVEL_PRICE
    ensures Ordered(WithLevel(s, buy, price), buy)
    ensures var k := Place(s, buy, price); k < |WithLevel(s, buy, price)| && WithLevel(s, buy, price)[k].price == price
  {
    hide Place;
    var k := Place(s, buy, price);
    if k == |s| || s[k].price != price {
      InsertOrdered(s, buy, k, Datum(price, Level(0, 0)));
    }
  }

  lemma InsertAt<T>(s: seq<T>, k: nat, x: T, j: nat)
    requires k <= |s| && j <= |s|
    ensures |s[..k] + [x] + s[k..]| == |s| + 1
    ensures (s[..k] + [x] + s[k..])[j] == if j < k then s[j] else if j == k then x else s[j - 1]
  {
  }

  lemma InsertOrdered(s: seq<Datum>, buy: bool, k: nat, d: Datum)
    requires Ordered(s, buy) && k <= |s| && d.price != INVALID_LEVEL_PRICE
    requires forall j :: 0 <= j < k ==> Better(buy, s[j].price, d.price)
    requires k < |s| ==> Better(buy, d.price, s[k].price)
    ensures Ordered(s[..k] + [d] + s[k..], buy)
  {
    var t := s[..k] + [d] + s[k..];
    forall i, j | 0 <= i < j < |t|
      ensures Better(buy, t[i].price, t[j].price)
    {
      InsertAt(s, k, d, i);
      InsertAt(s, k, d, j);
      if k < j {
        assert j - 1 == k || Better(buy, s[k].price, s[j - 1].price);
      }
    }
    forall i | 0 <= i < |t|
      ensures t[i].price != INVALID_LEVEL_PRICE
    {
      InsertAt(s, k, d, i);
    }
  }

  // ---- Shifting slots ----

  /** A slot that takes the place of the one before it. */
  function MovedDown(l: DepthLevel, rhs: DepthLevel, change: nat): DepthLevel {
    if rhs.price != INVALID_LEVEL_PRICE then l.Assign(rhs).Stamped(change) else l.Assign(rhs)
  }

  /** The slots once a level has been inserted at `i`. */
  ghost predicate ShiftedDown(slots: seq<DepthLevel>, slots': seq<DepthLevel>, i: nat, price: nat, change: nat) {
    && i < |slots| == |slots'|
    && (forall j {:trigger slots'[j]} :: 0 <= j < i ==> slots'[j] == slots[j])
    && slots'[i] == slots[i].Init(price, false)
    && (forall j {:trigger slots'[j]} :: i < j < |slots| ==> slots'[j] == MovedDown(slots[j], slots[j - 1], change))
  }

  /** The last slot, put in front of the excess when it was in use. */
  function PushedOut(slots: seq<DepthLevel>, excess: seq<DepthLevel>): seq<DepthLevel>
    requires slots != []
  {
    var last := slots[|slots| - 1];
    if last.price == INVALID_LEVEL_PRICE then excess
        else [DepthLevel(last.price, last.count, last.qty, true, last.lastChange)] + excess
  }

  lemma ShiftedDownFilled(slots: seq<DepthLevel>, slots': seq<DepthLevel>, i: nat, price: nat, change: nat)
    requires Packed(slots) && i < Filled(slots) && price != INVALID_LEVEL_PRICE
    requires ShiftedDown(slots, slots', i, price, change)
    ensures Filled(slots') == (if Filled(slots) < |slots| then Filled(slots) + 1 else Filled(slots)) && Packed(slots')
  {
    hide Filled;
    var n := Filled(slots);
    var n' := if n < |slots| then n + 1 else n;
    forall j | 0 <= j < n'
      ensures slots'[j].price != INVALID_LEVEL_PRICE
    {
      assert j > i ==> slots'[j].price == slots[j - 1].price;
    }
    if n' < |slots| {
      assert slots'[n'].price == slots[n].price;
    }
    FilledIs(slots', n');
    forall j | n' <= j < |slots|
      ensures slots'[j].Data() == BLANK.Data()
    {
      assert slots'[j].Data() == slots[j - 1].Data();
    }
    forall j | 0 <= j < |slots|
      ensures !slots'[j].isExcess
    {
      if j > i {
        assert slots'[j] == MovedDown(slots[j], slots[j - 1], change);
      }
    }
  }

  /** Inserting a level among the visible ones: the list gets it at the same place. */
  lemma InsertedAll(slots: seq<DepthLevel>, excess: seq<DepthLevel>, slots': seq<DepthLevel>, i: nat, price: nat,
                    change: nat)
    requires Packed(slots) && (excess != [] ==> Filled(slots) == |slots|) && i < Filled(slots)
    requires price != INVALID_LEVEL_PRICE
    requires ShiftedDown(slots, slots', i, price, change)
    ensures Packed(slots')
    ensures All(slots', PushedOut(slots, excess))
            == All(slots, excess)[..i] + [Datum(price, Level(0, 0))] + All(slots, excess)[i..]
    ensures PushedOut(slots, excess) != [] ==> Filled(slots') == |slots'|
  {
    hide Filled, Datas;
    var n := Filled(slots);
    var n' := if n < |slots| then n + 1 else n;
    ShiftedDownFilled(slots, slots', i, price, change);
    var out := PushedOut(slots, excess);
    var all, all' := All(slots, excess), All(slots', out);
    assert |all'| == |all| + 1 && i < |all|;
    forall k {:trigger all'[k]} | 0 <= k < |all'|
      ensures all'[k] == if k < i then all[k] else if k == i then Datum(price, Level(0, 0)) else all[k - 1]
    {
      InsertedAllAt(slots, excess, slots', i, price, change, k);
    }
    Inserted(all, all', i, Datum(price, Level(0, 0)));
  }

  lemma InsertedAllAt(slots: seq<DepthLevel>, excess: seq<DepthLevel>, slots': seq<DepthLevel>, i: nat, price: nat,
                      change: nat, k: nat)
    requires Packed(slots) && (excess != [] ==> Filled(slots) == |slots|) && i < Filled(slots)
    requires price != INVALID_LEVEL_PRICE
    requires ShiftedDown(slots, slots', i, price, change)
    requires i < |All(slots, excess)| && k < |All(slots', PushedOut(slots, excess))| <= |All(slots, excess)| + 1
    ensures All(slots', PushedOut(slots, excess))[k]
            == if k < i then All(slots, excess)[k]
               else if k == i then Datum(price, Level(0, 0))
               else All(slots, excess)[k - 1]
  {
    hide Filled, Datas;
    ShiftedDownFilled(slots, slots', i, price, change);
    AllAt(slots', PushedOut(slots, excess), k);
    if k < i {
      AllAt(slots, excess, k);
    } else if k > i {
      AllAt(slots, excess, k - 1);
    }
  }

  lemma Inserted<T>(s: seq<T>, t: seq<T>, i: nat, x: T)
    requires i <= |s| && |t| == |s| + 1
    requires forall k {:trigger t[k]} :: 0 <= k < |t| ==> t[k] == if k < i then s[k] else if k == i then x else s[k - 1]
    ensures t == s[..i] + [x] + s[i..]
  {
    forall k | 0 <= k < |t|
      ensures t[k] == (s[..i] + [x] + s[i..])[k]
    {
      InsertAt(s, i, x, k);
      if k > i {
        assert t[k] == s[k - 1];
      }
    }
  }

  /** A slot that takes the place of the one after it. */
  function MovedUp(l: DepthLevel, rhs: DepthLevel, change: nat): DepthLevel {
    l.Assign(rhs).Stamped(change)
  }

  /** What comes into the last slot: the best of the excess, or nothing. */
  function Restored(last: DepthLevel, excess: seq<DepthLevel>, change: nat): DepthLevel {
    if excess != [] then last.Assign(excess[0]).Stamped(change)
        else last.Init(INVALID_LEVEL_PRICE, false).Stamped(change)
  }

  /** The slots once the level at `i` has been erased. */
  ghost predicate ShiftedUp(slots: seq<DepthLevel>, excess: seq<DepthLevel>, slots': seq<DepthLevel>, i: nat,
                            change: nat) {
    var last := |slots| - 1;
    && i < |slots| == |slots'|
    && (forall j {:trigger slots'[j]} :: 0 <= j < i ==> slots'[j] == slots[j])
    && (forall j {:trigger slots'[j]} :: i <= j < last ==>
        slots'[j] == if slots[j].price != INVALID_LEVEL_PRICE then MovedUp(slots[j], slots[j + 1], change)
            else slots[j])
    && slots'[last] == if slots[last].price != INVALID_LEVEL_PRICE then Restored(slots[last], excess, change)
    else slots[last]
  }

  function PulledIn(slots: seq<DepthLevel>, excess: seq<DepthLevel>): seq<DepthLevel>
    requires slots != []
  {
    if excess != [] && slots[|slots| - 1].price != INVALID_LEVEL_PRICE then excess[1..] else excess
  }

  /** One slot after the shift. */
  lemma ShiftedUpAt(slots: seq<DepthLevel>, excess: seq<DepthLevel>, slots': seq<DepthLevel>, i: nat, change: nat,
                    j: nat)
    requires ShiftedUp(slots, excess, slots', i, change) && j < |slots| && Packed(slots) && i < Filled(slots)
    ensures slots'[j].isExcess == slots[j].isExcess
    ensures slots'[j].Data() == if j < i || j >= Filled(slots) then slots[j].Data()
                                else if j + 1 < |slots| then slots[j + 1].Data()
                                else if excess != [] then excess[0].Data() else BLANK.Data()
  {
    hide Filled;
    if i <= j < |slots| - 1 {
      assert slots'[j] == if slots[j].price != INVALID_LEVEL_PRICE then MovedUp(slots[j], slots[j + 1], change)
             else slots[j];
      assert j >= Filled(slots) ==> slots[j].Data() == BLANK.Data();
    } else if j == |slots| - 1 {
      assert j >= Filled(slots) ==> slots[j].Data() == BLANK.Data();
      assert !slots[j].isExcess;
    }
  }

  lemma ShiftedUpFilled(slots: seq<DepthLevel>, excess: seq<DepthLevel>, slots': seq<DepthLevel>, i: nat, change: nat,
                        buy: bool)
    requires Laid(slots, excess, buy) && i < Filled(slots) && ShiftedUp(slots, excess, slots', i, change)
    ensures Filled(slots') == (if excess != [] then Filled(slots) else Filled(slots) - 1) && Packed(slots')
  {
    hide Filled, Datas, ShiftedUp;
    assert |slots'| == |slots| by {
      SameLength(slots, excess, slots', i, change);
    }
    var n := Filled(slots);
    var n' := if excess != [] then n else n - 1;
    if excess != [] {
      AllAt(slots, excess, n);
      assert All(slots, excess)[n].price != INVALID_LEVEL_PRICE;
    }
    forall j | 0 <= j < |slots|
      ensures slots'[j].isExcess == slots[j].isExcess
      ensures j < n' ==> slots'[j].price != INVALID_LEVEL_PRICE
      ensures j >= n' ==> slots'[j].Data() == BLANK.Data()
    {
      ShiftedUpAt(slots, excess, slots', i, change, j);
      if j + 1 < |slots| {
        assert j + 1 >= n ==> slots[j + 1].Data() == BLANK.Data();
      }
      assert j >= n ==> slots[j].Data() == BLANK.Data();
    }
    FilledIs(slots', n');
  }

  lemma SameLength(slots: seq<DepthLevel>, excess: seq<DepthLevel>, slots': seq<DepthLevel>, i: nat, change: nat)
    requires ShiftedUp(slots, excess, slots', i, change)
    ensures |slots'| == |slots| > i
  {
  }

  /** Erasing a visible level takes it, and only it, out of the list. */
  lemma ErasedAll(slots: seq<DepthLevel>, excess: seq<DepthLevel>, slots': seq<DepthLevel>, i: nat, change: nat,
                  buy: bool)
    requires Laid(slots, excess, buy) && i < Filled(slots) && ShiftedUp(slots, excess, slots', i, change)
    ensures Packed(slots')
    ensures All(slots', PulledIn(slots, excess)) == All(slots, excess)[..i] + All(slots, excess)[i + 1..]
    ensures PulledIn(slots, excess) != [] ==> Filled(slots') == |slots'|
  {
    hide Filled, Datas;
    var n := Filled(slots);
    ShiftedUpFilled(slots, excess, slots', i, change, buy);
    var rest := PulledIn(slots, excess);
    var all, all' := All(slots, excess), All(slots', rest);
    assert |all'| == |all| - 1 && i < |all|;
    forall k {:trigger all'[k]} | 0 <= k < |all'|
      ensures all'[k] == if k < i then all[k] else all[k + 1]
    {
      ErasedAllAt(slots, excess, slots', i, change, buy, k);
    }
    Removed(all, all', i);
  }

  lemma ErasedAllAt(slots: seq<DepthLevel>, excess: seq<DepthLevel>, slots': seq<DepthLevel>, i: nat, change: nat,
                    buy: bool, k: nat)
    requires Laid(slots, excess, buy) && i < Filled(slots) && ShiftedUp(slots, excess, slots', i, change)
    requires k < |All(slots', PulledIn(slots, excess))| && k + 1 < |All(slots, excess)|
    ensures All(slots', PulledIn(slots, excess))[k] == if k < i then All(slots, excess)[k]
            else All(slots, excess)[k + 1]
  {
    hide Filled, Datas;
    ShiftedUpFilled(slots, excess, slots', i, change, buy);
    AllAt(slots', PulledIn(slots, excess), k);
    if k < i {
      AllAt(slots, excess, k);
    } else {
      AllAt(slots, excess, k + 1);
    }
  }

  lemma Removed<T>(s: seq<T>, t: seq<T>, i: nat)
    requires i < |s| && |t| == |s| - 1
    requires forall k {:trigger t[k]} :: 0 <= k < |t| ==> t[k] == if k < i then s[k] else s[k + 1]
    ensures t == s[..i] + s[i + 1..]
  {
    forall k | 0 <= k < |t|
      ensures t[k] == (s[..i] + s[i + 1..])[k]
    {
      if k >= i {
        assert t[k] == s[k + 1];
      }
    }
  }

  // ---- Finding and creating a level ----

  /** The slots before `k` all have a better price. */
  ghost predicate BetterBefore(slots: seq<DepthLevel>, k: nat, buy: bool, price: nat) {
    k <= |slots| && forall j {:trigger slots[j]} :: 0 <= j < k ==>
        slots[j].price != INVALID_LEVEL_PRICE && Better(buy, slots[j].price, price)
  }

  lemma BetterBeforeFilled(slots: seq<DepthLevel>, k: nat, buy: bool, price: nat)
    requires BetterBefore(slots, k, buy, price) && Packed(slots)
    ensures k <= Filled(slots)
    ensures k < |slots| ==> (k < Filled(slots) <==> slots[k].price != INVALID_LEVEL_PRICE)
  {
    hide Filled;
    var n := Filled(slots);
    if n < |slots| {
      assert slots[n].price == INVALID_LEVEL_PRICE;
    }
    assert k < |slots| && k >= Filled(slots) ==> slots[k].Data() == BLANK.Data();
  }

  /** The search stopped at a visible level or at a blank slot: that is where the price belongs. */
  lemma StoppedAtPlace(slots: seq<DepthLevel>, excess: seq<DepthLevel>, buy: bool, price: nat, k: nat)
    requires Laid(slots, excess, buy) && BetterBefore(slots, k, buy, price) && k < |slots|
    requires slots[k].price == INVALID_LEVEL_PRICE || !Better(buy, slots[k].price, price)
    ensures Place(All(slots, excess), buy, price) == k <= |All(slots, excess)|
    ensures k < |All(slots, excess)| <==> slots[k].price != INVALID_LEVEL_PRICE
    ensures k < |All(slots, excess)| ==> All(slots, excess)[k].price == slots[k].price
    ensures if slots[k].price == INVALID_LEVEL_PRICE then k == Filled(slots) else k < Filled(slots)
  {
    hide Filled, Datas, Place;
    var all := All(slots, excess);
    BetterBeforeFilled(slots, k, buy, price);
    forall j | 0 <= j < k
      ensures Better(buy, all[j].price, price)
    {
      AllAt(slots, excess, j);
      assert Better(buy, slots[j].price, price);
    }
    if k < |all| {
      AllAt(slots, excess, k);
    }
    PlaceIs(all, buy, price, k);
  }

  /** A blank slot takes the new price. */
  lemma BlankTaken(slots: seq<DepthLevel>, excess: seq<DepthLevel>, buy: bool, price: nat, k: nat)
    requires Laid(slots, excess, buy) && k == Filled(slots) < |slots| && price != INVALID_LEVEL_PRICE
    ensures var slots' := slots[k := slots[k].Init(price, false)];
            && Packed(slots') && All(slots', excess) == All(slots, excess) + [Datum(price, Level(0, 0))]
            && (excess != [] ==> Filled(slots') == |slots'|)
  {
    hide Filled, Datas;
    var slots' := slots[k := slots[k].Init(price, false)];
    if k + 1 < |slots| {
      assert slots[k + 1].Data() == BLANK.Data();
    }
    FilledIs(slots', k + 1);
    var all, all' := All(slots, excess), All(slots', excess);
    forall j | 0 <= j < |all'|
      ensures all'[j] == (all + [Datum(price, Level(0, 0))])[j]
    {
      AllAt(slots', excess, j);
      if j < k {
        AllAt(slots, excess, j);
      }
    }
  }

  /** Every visible level is better: the price belongs in the excess. */
  lemma BeyondVisible(slots: seq<DepthLevel>, excess: seq<DepthLevel>, buy: bool, price: nat, e: nat)
    requires Laid(slots, excess, buy) && BetterBefore(slots, |slots|, buy, price)
    requires e <= |excess| && (forall j :: 0 <= j < e ==> Better(buy, excess[j].price, price))
    requires (e < |excess| ==> !Better(buy, excess[e].price, price))
    ensures Filled(slots) == |slots|
    ensures Place(All(slots, excess), buy, price) == |slots| + e <= |All(slots, excess)| == |slots| + |excess|
    ensures e < |excess| ==> All(slots, excess)[|slots| + e].price == excess[e].price
  {
    hide Filled, Datas, Place;
    BetterBeforeFilled(slots, |slots|, buy, price);
    var all := All(slots, excess);
    forall j | 0 <= j < |slots| + e
      ensures Better(buy, all[j].price, price)
    {
      AllAt(slots, excess, j);
      assert j < |slots| ==> Better(buy, slots[j].price, price);
    }
    if e < |excess| {
      AllAt(slots, excess, |slots| + e);
    }
    PlaceIs(all, buy, price, |slots| + e);
  }

  lemma SpliceIn<T>(a: seq<T>, s: seq<T>, e: nat, x: T)
    requires e <= |s|
    ensures a + (s[..e] + [x] + s[e..]) == (a + s)[..|a| + e] + [x] + (a + s)[|a| + e..]
  {
    assert (a + s)[..|a| + e] == a + s[..e] && (a + s)[|a| + e..] == s[e..];
  }

  lemma SplicedIn(a: seq<Datum>, s: seq<Datum>, s': seq<Datum>, all: seq<Datum>, all': seq<Datum>, e: nat, x: Datum,
                  n: nat)
    requires e <= |s| && n == |a| + e && s' == s[..e] + [x] + s[e..] && all == a + s && all' == a + s'
    ensures n <= |all| && all' == all[..n] + [x] + all[n..]
  {
    SpliceIn(a, s, e, x);
  }

  lemma SpliceOut<T>(a: seq<T>, s: seq<T>, e: nat)
    requires e < |s|
    ensures a + (s[..e] + s[e + 1..]) == (a + s)[..|a| + e] + (a + s)[|a| + e + 1..]
  {
    assert (a + s)[..|a| + e] == a + s[..e] && (a + s)[|a| + e + 1..] == s[e + 1..];
  }

  lemma AllFull(slots: seq<DepthLevel>, excess: seq<DepthLevel>)
    requires Filled(slots) == |slots|
    ensures All(slots, excess) == Datas(slots) + Datas(excess)
  {
    assert slots[..|slots|] == slots;
  }

  lemma DatasInserted(s: seq<DepthLevel>, e: nat, l: DepthLevel)
    requires e <= |s|
    ensures Datas(s[..e] + [l] + s[e..]) == Datas(s)[..e] + [l.Data()] + Datas(s)[e..]
  {
    hide Datas;
    var t, d := s[..e] + [l] + s[e..], Datas(s)[..e] + [l.Data()] + Datas(s)[e..];
    DatasAt(s);
    DatasAt(t);
    forall k | 0 <= k < |t|
      ensures |d| == |t| && t[k].Data() == d[k]
    {
      InsertAt(s, e, l, k);
      InsertAt(Datas(s), e, l.Data(), k);
    }
    assert Datas(t) == d;
  }

  lemma DatasAt(s: seq<DepthLevel>)
    ensures |Datas(s)| == |s| && forall k :: 0 <= k < |s| ==> Datas(s)[k] == s[k].Data()
  {
  }

  lemma DatasRemoved(s: seq<DepthLevel>, e: nat)
    requires e < |s|
    ensures Datas(s[..e] + s[e + 1..]) == Datas(s)[..e] + Datas(s)[e + 1..]
  {
    hide Datas;
    var t := s[..e] + s[e + 1..];
    DatasAt(s);
    DatasAt(t);
    forall k {:trigger t[k]} | 0 <= k < |t|
      ensures t[k] == if k < e then s[k] else s[k + 1]
    {
    }
    Removed(Datas(s), Datas(t), e);
  }

  lemma ExcessInserted(slots: seq<DepthLevel>, excess: seq<DepthLevel>, excess': seq<DepthLevel>, e: nat, n: nat,
                       l: DepthLevel)
    requires Filled(slots) == |slots| && e <= |excess| && excess' == excess[..e] + [l] + excess[e..] && n == |slots| + e
    ensures n <= |All(slots, excess)|
    ensures All(slots, excess') == All(slots, excess)[..n] + [l.Data()] + All(slots, excess)[n..]
  {
    hide Filled, Datas, All;
    AllFull(slots, excess);
    AllFull(slots, excess');
    DatasInserted(excess, e, l);
    SplicedIn(Datas(slots), Datas(excess), Datas(excess'), All(slots, excess), All(slots, excess'), e, l.Data(), n);
  }

  lemma ExcessRemoved(slots: seq<DepthLevel>, excess: seq<DepthLevel>, excess': seq<DepthLevel>, e: nat, n: nat)
    requires Filled(slots) == |slots| && e < |excess| && excess' == excess[..e] + excess[e + 1..] && n == |slots| + e
    ensures n < |All(slots, excess)| && All(slots, excess') == All(slots, excess)[..n] + All(slots, excess)[n + 1..]
  {
    hide Filled, Datas, All;
    AllFull(slots, excess);
    AllFull(slots, excess');
    DatasRemoved(excess, e);
    SplicedOut(Datas(slots), Datas(excess), Datas(excess'), All(slots, excess), All(slots, excess'), e, n);
  }

  lemma SplicedOut(a: seq<Datum>, s: seq<Datum>, s': seq<Datum>, all: seq<Datum>, all': seq<Datum>, e: nat, n: nat)
    requires e < |s| && n == |a| + e && s' == s[..e] + s[e + 1..] && all == a + s && all' == a + s'
    ensures n < |all| && all' == all[..n] + all[n + 1..]
  {
    SpliceOut(a, s, e);
  }

  /** A level changed in place. */
  lemma SlotSet(slots: seq<DepthLevel>, excess: seq<DepthLevel>, k: nat, l: DepthLevel)
    requires Packed(slots) && (excess != [] ==> Filled(slots) == |slots|) && k < Filled(slots)
    requires l.price == slots[k].price && !l.isExcess
    ensures Packed(slots[k := l]) && Filled(slots[k := l]) == Filled(slots)
    ensures All(slots[k := l], excess) == All(slots, excess)[k := l.Data()]
  {
    hide Filled, Datas;
    FilledIs(slots[k := l], Filled(slots));
    var all, all' := All(slots, excess), All(slots[k := l], excess);
    forall j | 0 <= j < |all'|
      ensures all'[j] == all[k := l.Data()][j]
    {
      AllAt(slots[k := l], excess, j);
      AllAt(slots, excess, j);
    }
  }

  lemma ExcessSet(slots: seq<DepthLevel>, excess: seq<DepthLevel>, e: nat, l: DepthLevel)
    requires Filled(slots) == |slots| && e < |excess|
    ensures All(slots, excess[e := l]) == All(slots, excess)[|slots| + e := l.Data()]
  {
    hide Filled, Datas, All;
    AllFull(slots, excess);
    AllFull(slots, excess[e := l]);
    DatasSet(excess, e, l);
    SetBehind(Datas(slots), Datas(excess), e, l.Data());
  }

  lemma DatasSet(s: seq<DepthLevel>, e: nat, l: DepthLevel)
    requires e < |s|
    ensures Datas(s[e := l]) == Datas(s)[e := l.Data()]
  {
    hide Datas;
    DatasAt(s);
    DatasAt(s[e := l]);
  }

  lemma SetBehind<T>(a: seq<T>, b: seq<T>, e: nat, x: T)
    requires e < |b|
    ensures a + b[e := x] == (a + b)[|a| + e := x]
  {
  }

  lemma RemovedOrdered(s: seq<Datum>, buy: bool, k: nat)
    requires Ordered(s, buy) && k < |s|
    ensures Ordered(s[..k] + s[k + 1..], buy)
  {
    var t := s[..k] + s[k + 1..];
    assert forall i {:trigger t[i]} :: 0 <= i < |t| ==> t[i] == s[if i < k then i else i + 1];
  }

  lemma ChangedOrdered(s: seq<Datum>, buy: bool, k: nat, d: Datum)
    requires Ordered(s, buy) && k < |s| && d.price == s[k].price
    ensures Ordered(s[k := d], buy)
  {
  }

  /** After an erasure every slot is as it was, or carries the new stamp. */
  lemma MovedUpStamps(slots: seq<DepthLevel>, excess: seq<DepthLevel>, slots': seq<DepthLevel>, i: nat, change: nat)
    requires i < Filled(slots) && ShiftedUp(slots, excess, slots', i, change)
    ensures forall j {:trigger slots'[j]} :: 0 <= j < |slots| ==>
            (slots'[j] == slots[j] && j != i) || slots'[j].lastChange == change
  {
    hide Filled;
    forall j | 0 <= j < |slots|
      ensures (slots'[j] == slots[j] && j != i) || slots'[j].lastChange == change
    {
      if i <= j < |slots| - 1 {
        assert slots'[j] == if slots[j].price != INVALID_LEVEL_PRICE then MovedUp(slots[j], slots[j + 1], change)
               else slots[j];
      }
    }
  }

  // ---- The list operations as operations on the map ----

  lemma AbsentWhenNotPlaced(s: seq<Datum>, buy: bool, price: nat)
    requires Ordered(s, buy)
    requires var k := Place(s, buy, price); k == |s| || s[k].price != price
    ensures Find(s, price) == |s|
  {
    hide Place, Find;
    var f := Find(s, price);
    if f < |s| {
      PlaceOfPresent(s, buy, f);
    }
  }

  /** The list once an order has been added at a price. */
  function WithOrder(s: seq<Datum>, buy: bool, price: nat, qty: nat): seq<Datum> {
    var k, t := Place(s, buy, price), WithLevel(s, buy, price);
    if k < |t| then t[k := Datum(t[k].price, Level(t[k].level.count + 1, t[k].level.qty + qty))] else t
  }

  lemma OrderAdded(s: seq<Datum>, buy: bool, price: nat, qty: nat, ignored: nat)
    requires Ordered(s, buy) && price != INVALID_LEVEL_PRICE
    ensures MapOf(WithOrder(s, buy, price, qty)) == DepthSide(MapOf(s), ignored).AddOrder(price, qty).levels
    ensures Populated(s) ==> Populated(WithOrder(s, buy, price, qty))
  {
    hide MapOf, Find, Place;
    var k := Place(s, buy, price);
    MapLookup(s, price);
    if k < |s| && s[k].price == price {
      PlaceOfPresent(s, buy, k);
      MapAt(s, buy, k);
      MapUpdate(s, k, Level(s[k].level.count + 1, s[k].level.qty + qty));
    } else {
      AbsentWhenNotPlaced(s, buy, price);
      MapInsert(s, k, Datum(price, Level(1, qty)));
      assert WithOrder(s, buy, price, qty) == s[..k] + [Datum(price, Level(1, qty))] + s[k..];
      if Populated(s) {
        PopulatedInsert(s, k, Datum(price, Level(1, qty)));
      }
    }
  }

  lemma PopulatedInsert(s: seq<Datum>, k: nat, d: Datum)
    requires Populated(s) && k <= |s| && d.level.count > 0
    ensures Populated(s[..k] + [d] + s[k..])
  {
    forall i | 0 <= i < |s| + 1
      ensures (s[..k] + [d] + s[k..])[i].level.count > 0
    {
      InsertAt(s, k, d, i);
    }
  }

  lemma LevelChanged(s: seq<Datum>, buy: bool, k: nat, l: Level)
    requires Ordered(s, buy) && k < |s|
    ensures s[k].price in MapOf(s) && MapOf(s)[s[k].price] == s[k].level
    ensures MapOf(s[k := Datum(s[k].price, l)]) == MapOf(s)[s[k].price := l]
    ensures Populated(s) && l.count > 0 ==> Populated(s[k := Datum(s[k].price, l)])
  {
    hide MapOf, Find;
    FindAt(s, buy, k);
    MapAt(s, buy, k);
    MapUpdate(s, k, l);
  }

  lemma LevelErased(s: seq<Datum>, buy: bool, k: nat)
    requires Ordered(s, buy) && k < |s|
    ensures s[k].price in MapOf(s) && MapOf(s)[s[k].price] == s[k].level
    ensures MapOf(s[..k] + s[k + 1..]) == MapOf(s) - {s[k].price}
    ensures Populated(s) ==> Populated(s[..k] + s[k + 1..])
  {
    hide MapOf, Find, Ordered;
    MapAt(s, buy, k);
    MapErase(s, buy, k);
  }

  // ---- Change stamps ----

  /** Every slot shows what was last published or carries a later stamp, and no stamp is
      from the future. */
  ghost predicate StampedSide(slots: seq<DepthLevel>, shown: seq<Datum>, published: nat, change: nat) {
    && |shown| == |slots|
    && forall j {:trigger slots[j]} :: 0 <= j < |slots| ==>
         (slots[j].Data() == shown[j] || slots[j].lastChange > published) && slots[j].lastChange <= change
  }

  /** Every slot is as it was, or carries a stamp newer than any before. */
  ghost predicate OnlyStamped(slots: seq<DepthLevel>, slots': seq<DepthLevel>, change: nat, change': nat) {
    && |slots| == |slots'| && change <= change'
    && forall j {:trigger slots'[j]} :: 0 <= j < |slots| ==>
       slots'[j] == slots[j] || change < slots'[j].lastChange <= change'
  }

  lemma StampsKept(slots: seq<DepthLevel>, slots': seq<DepthLevel>, shown: seq<Datum>, published: nat, change: nat,
                   change': nat)
    requires StampedSide(slots, shown, published, change) && published <= change
    requires OnlyStamped(slots, slots', change, change')
    ensures StampedSide(slots', shown, published, change')
  {
    forall j | 0 <= j < |slots'|
      ensures (slots'[j].Data() == shown[j] || slots'[j].lastChange > published) && slots'[j].lastChange <= change'
    {
      assert slots[j].lastChange <= change;
    }
  }

  lemma OnlyStampedCompose(a: seq<DepthLevel>, b: seq<DepthLevel>, c: seq<DepthLevel>, x: nat, y: nat, z: nat)
    requires OnlyStamped(a, b, x, y) && OnlyStamped(b, c, y, z)
    ensures OnlyStamped(a, c, x, z)
  {
    forall j | 0 <= j < |a|
      ensures c[j] == a[j] || x < c[j].lastChange <= z
    {
      assert b[j] == a[j] || x < b[j].lastChange <= y;
    }
  }

  /** The visible slots hold the best prices of the side: a level that is not visible is worse
      than every visible one, and there is one only when every slot is in use. */
  lemma VisibleAreBest(slots: seq<DepthLevel>, excess: seq<DepthLevel>, buy: bool, price: nat, j: nat)
    requires Laid(slots, excess, buy) && price in MapOf(All(slots, excess)) && j < |slots|
    requires forall i {:trigger slots[i]} :: 0 <= i < |slots| ==> slots[i].price != price
    ensures slots[j].price != INVALID_LEVEL_PRICE && Better(buy, slots[j].price, price)
  {
    hide Filled, Datas, Find;
    var all := All(slots, excess);
    MapLookup(all, price);
    var f := Find(all, price);
    AllAt(slots, excess, f);
    assert f >= |slots|;
    AllAt(slots, excess, j);
  }

  /** What a visible slot shows is what the map has at its price, and a blank shows nothing. */
  lemma VisibleShowsMap(slots: seq<DepthLevel>, excess: seq<DepthLevel>, buy: bool, j: nat)
    requires Laid(slots, excess, buy) && j < |slots|
    ensures if slots[j].price == INVALID_LEVEL_PRICE then slots[j].count == 0 && slots[j].qty == 0
            else slots[j].price in MapOf(All(slots, excess)) &&
                 MapOf(All(slots, excess))[slots[j].price] == Level(slots[j].count, slots[j].qty)
  {
    hide Filled, Datas, MapOf;
    var l := slots[j];
    assert j >= Filled(slots) ==> l.Data() == BLANK.Data();
    if j < Filled(slots) {
      assert All(slots, excess)[j] == l.Data();
      MapAt(All(slots, excess), buy, j);
    }
  }
}
