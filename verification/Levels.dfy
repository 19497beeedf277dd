/** Price ladders: one side of an order book as the sorted list of levels that `OrderBook` keeps, and the two list
    operations every delta is made of. */
module Levels {

  /** Two prices closer than this name the same level. */
  const EPSILON: real := 0.00000001

  datatype Side = Buy | Sell

  datatype Level = Level(price: real, size: real, orders: int)

  /** Position of a price in a side's priority order: the best price ranks lowest. Bids (Buy) list the dearest price
      first, asks (Sell) the cheapest. */
  function Rank(side: Side, price: real): real {
    if side.Buy? then -price else price
  }

  predicate Near(p: real, q: real) {
    -EPSILON < p - q < EPSILON
  }

  ghost predicate Sorted(levels: seq<Level>, side: Side) {
    forall i, j :: 0 <= i < j < |levels| ==> Rank(side, levels[i].price) <= Rank(side, levels[j].price)
  }

  ghost predicate Spaced(levels: seq<Level>, side: Side) {
    forall i, j :: 0 <= i < j < |levels| ==> Rank(side, levels[j].price) - Rank(side, levels[i].price) >= EPSILON
  }

  ghost predicate PositiveSizes(levels: seq<Level>) {
    forall i :: 0 <= i < |levels| ==> levels[i].size > 0.0
  }

  /** The book invariant for one side. */
  ghost predicate Good(levels: seq<Level>, side: Side) {
    Spaced(levels, side) && PositiveSizes(levels)
  }

  /** What `remove_level` leaves. */
  function Without(levels: seq<Level>, price: real): seq<Level> {
    if levels == [] then []
    else if Near(levels[0].price, price) then Without(levels[1..], price)
    else [levels[0]] + Without(levels[1..], price)
  }

  /** Where `insert_level` puts a level: in front of the first level that is not strictly better. */
  function Insert(levels: seq<Level>, level: Level, side: Side): seq<Level> {
    if levels == [] || Rank(side, levels[0].price) >= Rank(side, level.price) then [level] + levels
    else [levels[0]] + Insert(levels[1..], level, side)
  }

  lemma {:induction false} WithoutMembers(levels: seq<Level>, price: real, x: Level)
    ensures x in Without(levels, price) <==> x in levels && !Near(x.price, price)
  {
    if levels == [] {
    } else {
      WithoutMembers(levels[1..], price, x);
      assert levels == [levels[0]] + levels[1..];
    }
  }

  lemma {:induction false} InsertMembers(levels: seq<Level>, level: Level, side: Side, x: Level)
    ensures x in Insert(levels, level, side) <==> x == level || x in levels
  {
    if levels == [] || Rank(side, levels[0].price) >= Rank(side, level.price) {
    } else {
      InsertMembers(levels[1..], level, side, x);
      assert levels == [levels[0]] + levels[1..];
    }
  }

  /** A list is good when its head is spaced from every member of a good tail. */
  lemma GoodCons(head: Level, tail: seq<Level>, side: Side)
    requires Good(tail, side) && head.size > 0.0
    requires forall x :: x in tail ==> Rank(side, x.price) - Rank(side, head.price) >= EPSILON
    ensures Good([head] + tail, side)
  {
  }

  lemma GoodTail(levels: seq<Level>, side: Side)
    requires Good(levels, side) && levels != []
    ensures Good(levels[1..], side) && levels[0].size > 0.0
    ensures forall x :: x in levels[1..] ==> Rank(side, x.price) - Rank(side, levels[0].price) >= EPSILON
  {
  }

  lemma {:induction false} WithoutGood(levels: seq<Level>, price: real, side: Side)
    requires Good(levels, side)
    ensures Good(Without(levels, price), side)
  {
    if levels == [] {
    } else {
      GoodTail(levels, side);
      WithoutGood(levels[1..], price, side);
      forall x | x in Without(levels[1..], price)
        ensures Rank(side, x.price) - Rank(side, levels[0].price) >= EPSILON
      {
        WithoutMembers(levels[1..], price, x);
      }
      if !Near(levels[0].price, price) {
        GoodCons(levels[0], Without(levels[1..], price), side);
      }
    }
  }

  /** A level that is near no other may be inserted. */
  lemma {:induction false} InsertGood(levels: seq<Level>, level: Level, side: Side)
    requires Good(levels, side) && level.size > 0.0
    requires forall x :: x in levels ==> !Near(x.price, level.price)
    ensures Good(Insert(levels, level, side), side)
  {
    if levels == [] {
    } else {
      GoodTail(levels, side);
      assert !Near(levels[0].price, level.price);
      if Rank(side, levels[0].price) >= Rank(side, level.price) {
        GoodCons(level, levels, side);
      } else {
        InsertGood(levels[1..], level, side);
        forall x | x in Insert(levels[1..], level, side)
          ensures Rank(side, x.price) - Rank(side, levels[0].price) >= EPSILON
        {
          InsertMembers(levels[1..], level, side, x);
        }
        GoodCons(levels[0], Insert(levels[1..], level, side), side);
      }
    }
  }

  /** A spaced list is determined by its set of levels. */
  lemma {:induction false} SpacedIsUnique(a: seq<Level>, b: seq<Level>, side: Side)
    requires Spaced(a, side) && Spaced(b, side)
    requires forall x :: x in a <==> x in b
    ensures a == b
  {
    if a != [] || b != [] {
      assert (a + b)[0] in a + b;
      assert (a + b)[0] in a && (a + b)[0] in b;
      assert a[0] in b && b[0] in a;
      assert a[0] == b[0];
      assert a == [a[0]] + a[1..] && b == [b[0]] + b[1..];
      forall x ensures x in a[1..] <==> x in b[1..] {
        assert x in a[1..] ==> x in a && x != a[0];
        assert x in b[1..] ==> x in b && x != b[0];
        assert x in a ==> x == a[0] || x in a[1..];
        assert x in b ==> x == b[0] || x in b[1..];
      }
      SpacedIsUnique(a[1..], b[1..], side);
    }
  }

  /** Removal by tolerance takes at most two levels out of a spaced list. */
  lemma {:induction false} DisplacesAtMostTwo(levels: seq<Level>, price: real, side: Side)
    requires Spaced(levels, side)
    ensures |levels| - 2 <= |Without(levels, price)| <= |levels|
    ensures levels != [] && Rank(side, levels[0].price) >= Rank(side, price) ==>
      |levels| - 1 <= |Without(levels, price)|
    ensures levels != [] && Rank(side, levels[0].price) - Rank(side, price) >= EPSILON ==>
      Without(levels, price) == levels
  {
    if levels == [] {
    } else {
      DisplacesAtMostTwo(levels[1..], price, side);
    }
  }

  /** And it takes two exactly if the price is near two neighbours. */
  lemma {:induction false} DisplacesTwoIff(levels: seq<Level>, price: real, side: Side)
    requires Spaced(levels, side)
    ensures |Without(levels, price)| == |levels| - 2 <==> NearTwo(levels, price)
  {
    if levels != [] {
      var tail := levels[1..];
      DisplacesTwoIff(tail, price, side);
      NearTwoHead(levels, price);
      if Near(levels[0].price, price) && tail != [] {
        DisplacesAtMostTwo(tail[1..], price, side);
        NearTwoHead(tail, price);
        NoneNear(levels, price, side);
      }
    }
  }

  /** Near a level, no other near one lies beyond its neighbour. */
  lemma NoneNear(levels: seq<Level>, price: real, side: Side)
    requires Spaced(levels, side) && levels != [] && Near(levels[0].price, price)
    ensures forall i :: 2 <= i < |levels| ==> Rank(side, levels[i].price) - Rank(side, price) >= EPSILON
  {
    assert |levels| > 1 ==> Rank(side, levels[1].price) - Rank(side, levels[0].price) >= EPSILON;
  }

  ghost predicate NearTwo(levels: seq<Level>, price: real) {
    exists i, j :: 0 <= i && j == i + 1 && j < |levels| && Near(levels[i].price, price) && Near(levels[j].price, price)
  }

  lemma NearTwoHead(levels: seq<Level>, price: real)
    requires levels != []
    ensures NearTwo(levels, price) <==>
              NearTwo(levels[1..], price)
              || (|levels| > 1 && Near(levels[0].price, price) && Near(levels[1].price, price))
  {
    hide Near;
    var tail := levels[1..];
    if i, j :| 0 <= i && j == i + 1 && j < |tail| && Near(tail[i].price, price) && Near(tail[j].price, price) {
      assert levels[i + 1] == tail[i] && levels[j + 1] == tail[j];
    }
    if i, j :| 0 <= i && j == i + 1 && j < |levels| && Near(levels[i].price, price) && Near(levels[j].price, price) {
      assert i > 0 ==> tail[i - 1] == levels[i] && tail[j - 1] == levels[j];
    }
  }
}
