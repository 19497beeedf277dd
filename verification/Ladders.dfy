/** The ordered view of a map-based book, and the agreement of the two book implementations. */
module Ladders {
  import opened Basics
  import opened Levels
  import opened Deltas
  import opened DepthFeed

  /** First price of a non-empty set in a side's priority order, as an ordered map iterates. */
  ghost function Best(prices: set<real>, side: Side): (best: real)
    requires prices != {}
    ensures best in prices && forall p :: p in prices ==> Rank(side, best) <= Rank(side, p)
  {
    var p := Any(prices);
    if prices == {p} then p
    else
      assert prices - {p} != {} by { assert prices != {p}; }
      var q := Best(prices - {p}, side);
      if Rank(side, p) <= Rank(side, q) then p else q
  }

  ghost function Ordered(prices: set<real>, side: Side): seq<real> {
    if prices == {} then []
    else
      var best := Best(prices, side);
      [best] + Ordered(prices - {best}, side)
  }

  ghost predicate Ascending(ordered: seq<real>, side: Side) {
    forall i, j :: 0 <= i < j < |ordered| ==> Rank(side, ordered[i]) < Rank(side, ordered[j])
  }

  lemma BestIsFirst(prices: set<real>, side: Side, p: real)
    requires prices != {} && p in prices - {Best(prices, side)}
    ensures Rank(side, Best(prices, side)) < Rank(side, p)
  {
    hide Best;
  }

  lemma AscendingCons(first: real, rest: seq<real>, side: Side)
    requires Ascending(rest, side) && forall p :: p in rest ==> Rank(side, first) < Rank(side, p)
    ensures Ascending([first] + rest, side)
  {
  }

  lemma {:induction false} OrderedIsOrdered(prices: set<real>, side: Side)
    ensures |Ordered(prices, side)| == |prices|
    ensures forall p :: p in Ordered(prices, side) <==> p in prices
    ensures Ascending(Ordered(prices, side), side)
  {
    hide Best, Rank;
    if prices != {} {
      var best := Best(prices, side);
      var rest := Ordered(prices - {best}, side);
      OrderedIsOrdered(prices - {best}, side);
      forall p | p in rest ensures Rank(side, best) < Rank(side, p) {
        BestIsFirst(prices, side, p);
      }
      AscendingCons(best, rest, side);
    }
  }

  /** The levels `to_order_book` builds from prices in this order: those with a positive quantity. */
  function Quoted(m: Quotes, prices: seq<real>): seq<Level>
    requires forall i :: 0 <= i < |prices| ==> prices[i] in m
  {
    if prices == [] then []
    else if m[prices[0]] > 0.0 then [Level(prices[0], m[prices[0]], 0)] + Quoted(m, prices[1..])
    else Quoted(m, prices[1..])
  }

  /** The first `depth` of a set of prices, in order. */
  ghost function Top(prices: set<real>, side: Side, depth: int): seq<real> {
    var ordered := Ordered(prices, side);
    if depth <= 0 then [] else if depth < |ordered| then ordered[..depth] else ordered
  }

  lemma TopIsSubset(prices: set<real>, side: Side, depth: int)
    ensures forall i :: 0 <= i < |Top(prices, side, depth)| ==> Top(prices, side, depth)[i] in prices
  {
    OrderedIsOrdered(prices, side);
    assert forall i :: 0 <= i < |Ordered(prices, side)| ==> Ordered(prices, side)[i] in Ordered(prices, side);
  }

  lemma TopSplits(prices: set<real>, side: Side, depth: int)
    requires prices != {} && depth > 0
    ensures Top(prices, side, depth) == [Best(prices, side)] + Top(prices - {Best(prices, side)}, side, depth - 1)
  {
    hide Best, Rank, Ascending;
    OrderedIsOrdered(prices, side);
    OrderedIsOrdered(prices - {Best(prices, side)}, side);
  }

  /** One side of the published book: positive quantities among the first `depth` prices. */
  ghost function PublishedOf(m: Quotes, prices: set<real>, side: Side, depth: int): seq<Level>
    requires prices <= m.Keys
  {
    TopIsSubset(prices, side, depth);
    Quoted(m, Top(prices, side, depth))
  }

  ghost function Published(m: Quotes, side: Side, depth: int): seq<Level> {
    PublishedOf(m, m.Keys, side, depth)
  }

  /** Publishing starts with the best price and goes on with the others. */
  lemma PublishedSplits(m: Quotes, prices: set<real>, side: Side, depth: int)
    requires prices <= m.Keys && prices != {} && depth > 0
    ensures var best := Best(prices, side);
            PublishedOf(m, prices, side, depth) ==
              (if m[best] > 0.0 then [Level(best, m[best], 0)] else [])
                + PublishedOf(m, prices - {best}, side, depth - 1)
  {
    var best := Best(prices, side);
    var tail := Top(prices - {best}, side, depth - 1);
    TopSplits(prices, side, depth);
    TopIsSubset(prices - {best}, side, depth - 1);
    assert ([best] + tail)[1..] == tail;
  }

  lemma {:induction false} QuotedMembers(m: Quotes, prices: seq<real>, x: Level)
    requires forall i :: 0 <= i < |prices| ==> prices[i] in m
    ensures x in Quoted(m, prices) <==> x.price in prices && x == Level(x.price, m[x.price], 0) && x.size > 0.0
  {
    if prices != [] {
      QuotedMembers(m, prices[1..], x);
      assert prices == [prices[0]] + prices[1..];
    }
  }

  /** The prices before this one in a side's priority order. */
  function Better(prices: set<real>, side: Side, price: real): set<real> {
    set p | p in prices && Rank(side, p) < Rank(side, price)
  }

  /** In order, a price comes after exactly as many as are better. */
  lemma {:induction false} OrderedAt(prices: set<real>, side: Side, k: nat)
    requires k < |Ordered(prices, side)|
    ensures Ordered(prices, side)[k] in prices && |Better(prices, side, Ordered(prices, side)[k])| == k
  {
    hide Best, Rank;
    var best := Best(prices, side);
    var rest := Ordered(prices - {best}, side);
    if k == 0 {
      NoneBetter(prices, side);
    } else {
      OrderedAt(prices - {best}, side, k - 1);
      BestIsBetter(prices, side, rest[k - 1]);
    }
  }

  lemma NoneBetter(prices: set<real>, side: Side)
    requires prices != {}
    ensures Better(prices, side, Best(prices, side)) == {}
  {
    hide Best;
  }

  lemma BestIsBetter(prices: set<real>, side: Side, p: real)
    requires prices != {} && p in prices - {Best(prices, side)}
    ensures var best := Best(prices, side);
            && best !in Better(prices - {best}, side, p)
            && Better(prices, side, p) == Better(prices - {best}, side, p) + {best}
  {
    BestIsFirst(prices, side, p);
    hide Best;
  }

  /** The published side lists exactly the prices with a positive quantity that fewer than `depth` prices are better
      than, and lists them in order. */
  lemma PublishedIsTop(m: Quotes, side: Side, depth: int, x: Level)
    ensures x in Published(m, side, depth) <==>
              x.price in m && x == Level(x.price, m[x.price], 0) && x.size > 0.0
                && |Better(m.Keys, side, x.price)| < depth
  {
    hide Ordered, Best, Rank, Quoted, Better;
    var ordered, top := Ordered(m.Keys, side), Top(m.Keys, side, depth);
    OrderedIsOrdered(m.Keys, side);
    TopIsSubset(m.Keys, side, depth);
    QuotedMembers(m, top, x);
    if x.price in m {
      assert x.price in ordered;
      var k :| 0 <= k < |ordered| && ordered[k] == x.price;
      OrderedAt(m.Keys, side, k);
      assert k < depth ==> top[k] == x.price;
      if x.price in top {
        var j :| 0 <= j < |top| && top[j] == x.price;
        assert ordered[j] == x.price;
        OrderedAt(m.Keys, side, j);
      }
    }
  }

  lemma {:induction false} QuotedAscends(m: Quotes, prices: seq<real>, side: Side)
    requires forall i :: 0 <= i < |prices| ==> prices[i] in m
    requires Ascending(prices, side)
    ensures forall i, j :: 0 <= i < j < |Quoted(m, prices)| ==>
              Rank(side, Quoted(m, prices)[i].price) < Rank(side, Quoted(m, prices)[j].price)
  {
    hide Rank;
    if prices != [] {
      var tail := Quoted(m, prices[1..]);
      QuotedAscends(m, prices[1..], side);
      forall i | 0 <= i < |tail| ensures Rank(side, prices[0]) < Rank(side, tail[i].price) {
        QuotedMembers(m, prices[1..], tail[i]);
        var k :| 0 <= k < |prices[1..]| && prices[1..][k] == tail[i].price;
        assert prices[k + 1] == tail[i].price;
      }
    }
  }

  lemma PublishedAscends(m: Quotes, side: Side, depth: int)
    ensures var levels := Published(m, side, depth);
            forall i, j :: 0 <= i < j < |levels| ==> Rank(side, levels[i].price) < Rank(side, levels[j].price)
  {
    hide Rank, Ordered, Quoted;
    OrderedIsOrdered(m.Keys, side);
    TopIsSubset(m.Keys, side, depth);
    QuotedAscends(m, Top(m.Keys, side, depth), side);
  }

  /** Prices are on a grid: equal or at least one tolerance apart. */
  ghost predicate OnGrid(prices: set<real>) {
    forall p, q :: p in prices && q in prices && p != q ==> !Near(p, q)
  }

  lemma {:induction false} QuotedGood(m: Quotes, prices: seq<real>, side: Side)
    requires forall i :: 0 <= i < |prices| ==> prices[i] in m
    requires Ascending(prices, side) && forall i, j :: 0 <= i < j < |prices| ==> !Near(prices[i], prices[j])
    ensures Good(Quoted(m, prices), side)
  {
    if prices != [] {
      var tail := Quoted(m, prices[1..]);
      QuotedGood(m, prices[1..], side);
      forall x | x in tail ensures Rank(side, x.price) - Rank(side, prices[0]) >= EPSILON {
        QuotedMembers(m, prices[1..], x);
        var k :| 0 <= k < |prices[1..]| && prices[1..][k] == x.price;
        assert prices[k + 1] == x.price;
      }
      if m[prices[0]] > 0.0 {
        GoodCons(Level(prices[0], m[prices[0]], 0), tail, side);
      }
    }
  }

  /** The two implementations hold the same side of a book. */
  ghost predicate Agree(levels: seq<Level>, m: Quotes, side: Side) {
    && Good(levels, side)
    && forall x :: x in levels <==> x.price in m && x == Level(x.price, m[x.price], 0) && x.size > 0.0
  }

  /** Agreement is equality with the full-depth view. */
  lemma AgreeIsEquality(levels: seq<Level>, m: Quotes, side: Side, depth: int)
    requires OnGrid(m.Keys) && depth >= |m|
    ensures Agree(levels, m, side) <==> levels == Published(m, side, depth)
  {
    OrderedIsOrdered(m.Keys, side);
    var ordered := Ordered(m.Keys, side);
    assert forall i :: 0 <= i < |ordered| ==> ordered[i] in ordered;
    QuotedGood(m, ordered, side);
    forall x ensures x in Quoted(m, ordered) <==> x.price in m && x == Level(x.price, m[x.price], 0) && x.size > 0.0 {
      QuotedMembers(m, ordered, x);
    }
    if Agree(levels, m, side) {
      SpacedIsUnique(levels, Quoted(m, ordered), side);
    }
  }

  /** The delta that carries one level change to the vector book: an update, or a deletion when the size is zero. */
  predicate Carries(d: Delta, c: Change, side: Side) {
    d.side == side && d.price == c.0 && !d.kind.Snapshot? && (d.kind.Delete? <==> c.1 == 0.0)
      && (!d.kind.Delete? ==> d.size == c.1)
  }

  lemma ChangeAgrees(levels: seq<Level>, m: Quotes, side: Side, d: Delta, c: Change)
    requires Agree(levels, m, side) && Carries(d, c, side) && OnGrid(m.Keys + {c.0})
    ensures Agree(Applied(levels, d, side), SetLevel(m, c), side)
  {
    AppliedGood(levels, d, side);
    var m' := SetLevel(m, c);
    forall x
      ensures x in Applied(levels, d, side) <==> x.price in m' && x == Level(x.price, m'[x.price], 0) && x.size > 0.0
    {
      assert x.price in m && x.price != c.0 ==> !Near(x.price, c.0);
      assert x.price == c.0 ==> Near(x.price, c.0);
    }
  }

  function PricesOf(changes: seq<Change>): set<real> {
    set i | 0 <= i < |changes| :: changes[i].0
  }

  lemma PricesOfLast(changes: seq<Change>)
    requires changes != []
    ensures PricesOf(changes) == PricesOf(changes[..|changes| - 1]) + {changes[|changes| - 1].0}
  {
    var before := changes[..|changes| - 1];
    assert forall i :: 0 <= i < |before| ==> before[i] == changes[i];
    forall p | p in PricesOf(changes) ensures p in PricesOf(before) + {changes[|changes| - 1].0} {
      var i :| 0 <= i < |changes| && changes[i].0 == p;
      assert i < |before| ==> before[i].0 == p;
    }
  }

  /** From any books that agree, any sequence of level changes on a grid, of whatever sizes, leaves them in
      agreement. */
  lemma {:induction false} BooksAgree(levels: seq<Level>, m: Quotes, changes: seq<Change>, ds: seq<Delta>, side: Side)
    requires Agree(levels, m, side) && OnGrid(m.Keys + PricesOf(changes))
    requires |ds| == |changes| && forall i :: 0 <= i < |ds| ==> Carries(ds[i], changes[i], side)
    ensures SetAll(m, changes).Keys <= m.Keys + PricesOf(changes)
    ensures Agree(Replay(levels, ds, side), SetAll(m, changes), side)
  {
    if changes != [] {
      var n := |changes| - 1;
      var before := changes[..n];
      PricesOfLast(changes);
      BooksAgree(levels, m, before, ds[..n], side);
      ChangeAgrees(Replay(levels, ds[..n], side), SetAll(m, before), side, ds[n], changes[n]);
    }
  }

  // The vector book behind a feed: published once from the snapshot, then given every level change of the updates.

  function SideOf(b: LocalBook, side: Side): Quotes {
    if side.Buy? then b.bids else b.asks
  }

  /** The level changes of the updates that the book does not ignore. */
  function ChangesTaken(b: LocalBook, es: seq<Event>, side: Side): seq<Change> {
    if es == [] then []
    else
      var n := |es| - 1;
      ChangesTaken(b, es[..n], side)
      + (if es[n].final <= ReceiveAll(b, Updates(es[..n])).lastUpdateId then []
         else if side.Buy? then es[n].bids else es[n].asks)
  }

  lemma {:induction false} UpdatesSetLevels(b: LocalBook, es: seq<Event>, side: Side)
    requires b.initialized
    ensures var r := ReceiveAll(b, Updates(es));
            r.initialized && SideOf(r, side) == SetAll(SideOf(b, side), ChangesTaken(b, es, side))
  {
    if es != [] {
      var n := |es| - 1;
      UpdatesSetLevels(b, es[..n], side);
      UpdatesLast(es);
      var before := ReceiveAll(b, Updates(es[..n]));
      assert ReceiveAll(b, Updates(es)) == ApplyEvent(before, es[n]);
      if es[n].final <= before.lastUpdateId {
        assert ChangesTaken(b, es, side) == ChangesTaken(b, es[..n], side);
      } else {
        SetAllAppends(SideOf(b, side), ChangesTaken(b, es[..n], side), if side.Buy? then es[n].bids else es[n].asks);
      }
    }
  }

  lemma {:induction false} SetAllAppends(m: Quotes, changes: seq<Change>, more: seq<Change>)
    ensures SetAll(m, changes + more) == SetAll(SetAll(m, changes), more)
  {
    if more == [] {
      assert changes + more == changes;
    } else {
      var n := |more| - 1;
      SetAllAppends(m, changes, more[..n]);
      assert (changes + more)[..|changes| + n] == changes + more[..n];
    }
  }

  /** From a snapshot on, over every stream of updates, the vector book is what the map book publishes at full depth. */
  lemma BooksPublishTheSame(b: LocalBook, s: BookSnapshot, es: seq<Event>, ds: seq<Delta>, side: Side, depth: int)
    requires var loaded := ApplySnapshot(b, s);
             var changes := ChangesTaken(loaded, es, side);
             && OnGrid(SideOf(loaded, side).Keys + PricesOf(changes))
             && |ds| == |changes| && (forall i :: 0 <= i < |ds| ==> Carries(ds[i], changes[i], side))
             && depth >= |SideOf(ReceiveAll(loaded, Updates(es)), side)|
    ensures var loaded := ApplySnapshot(b, s);
            var first := Published(SideOf(loaded, side), side, |SideOf(loaded, side)|);
            Replay(first, ds, side) == Published(SideOf(ReceiveAll(loaded, Updates(es)), side), side, depth)
  {
    var loaded := ApplySnapshot(b, s);
    var m, changes := SideOf(loaded, side), ChangesTaken(loaded, es, side);
    var first := Published(m, side, |m|);
    AgreeIsEquality(first, m, side, |m|);
    BooksAgree(first, m, changes, ds, side);
    UpdatesSetLevels(loaded, es, side);
    AgreeIsEquality(Replay(first, ds, side), SetAll(m, changes), side, depth);
  }

  // What is published while only the best prices are known: the client asks for a snapshot of limited depth.

  /** The prices at or better than `worst`. */
  function Known(prices: set<real>, side: Side, worst: real): set<real> {
    set p | p in prices && Rank(side, p) <= Rank(side, worst)
  }

  ghost function KnownPrices(side: Side, worst: real): (known: iset<real>)
    ensures forall p: real :: p in known <==> Rank(side, p) <= Rank(side, worst)
  {
    iset p: real | Near(p, p) && Rank(side, p) <= Rank(side, worst)
  }

  lemma BestIsKnown(prices: set<real>, side: Side, worst: real)
    requires Known(prices, side, worst) != {}
    ensures var known, best := Known(prices, side, worst), Best(prices, side);
            best in known && best == Best(known, side) && Known(prices - {best}, side, worst) == known - {best}
  {
    hide Best;
    var known := Known(prices, side, worst);
    assert Best(known, side) in prices;
  }

  /** The first prices of a book are those of its known part, as long as that has enough of them. */
  lemma {:induction false} TopIsKnown(prices: set<real>, side: Side, worst: real, depth: int)
    requires |Known(prices, side, worst)| >= depth
    ensures Top(prices, side, depth) == Top(Known(prices, side, worst), side, depth)
    decreases depth
  {
    hide Best, Known;
    if depth > 0 {
      KnownIsSubset(prices, side, worst);
      var known, best := Known(prices, side, worst), Best(prices, side);
      BestIsKnown(prices, side, worst);
      TopIsKnown(prices - {best}, side, worst, depth - 1);
      TopSplits(prices, side, depth);
      TopSplits(known, side, depth);
    }
  }

  lemma KnownIsSubset(prices: set<real>, side: Side, worst: real)
    ensures Known(prices, side, worst) <= prices
  {
  }

  lemma {:induction false} SameQuoted(m: Quotes, t: Quotes, prices: seq<real>)
    requires forall i :: 0 <= i < |prices| ==> prices[i] in m && prices[i] in t && m[prices[i]] == t[prices[i]]
    ensures Quoted(m, prices) == Quoted(t, prices)
  {
    if prices != [] {
      SameQuoted(m, t, prices[1..]);
    }
  }

  /** Two books that agree on the best prices publish the same, to any depth that these prices fill. */
  lemma SameTopPublished(m: Quotes, t: Quotes, side: Side, worst: real, depth: int)
    requires Clean(m) && Clean(t)
    requires forall p :: Rank(side, p) <= Rank(side, worst) ==> Qty(m, p) == Qty(t, p)
    requires depth <= |Known(t.Keys, side, worst)|
    ensures Published(m, side, depth) == Published(t, side, depth)
  {
    hide Top, Rank;
    var known := Known(t.Keys, side, worst);
    forall p | Rank(side, p) <= Rank(side, worst) ensures p in m <==> p in t {
      assert Qty(m, p) == Qty(t, p);
    }
    assert Known(m.Keys, side, worst) == known;
    TopIsKnown(m.Keys, side, worst, depth);
    TopIsKnown(t.Keys, side, worst, depth);
    TopIsSubset(known, side, depth);
    var top := Top(known, side, depth);
    forall i | 0 <= i < |top| ensures top[i] in m && top[i] in t && m[top[i]] == t[top[i]] {
      assert Qty(m, top[i]) == Qty(t, top[i]);
    }
    SameQuoted(m, t, top);
  }

  /** Over every gap-free feed whose snapshots cover the bids at or above `worstBid` and the asks at or below
      `worstAsk`, the client publishes the exchange's own best levels, to any depth that the exchange fills with such
      prices. */
  lemma FeedPublishesTop(x: Exchange, b: LocalBook, fs: seq<Feed>, worstBid: real, worstAsk: real, depth: int)
    requires ValidExchange(x) && !b.initialized
    requires FeedFrom(x, b, fs, KnownPrices(Buy, worstBid), KnownPrices(Sell, worstAsk))
    ensures var r := ReceiveAll(b, fs);
            r.initialized ==>
              && 0 <= r.lastUpdateId < |x.bids|
              && (depth <= |Known(x.bids[r.lastUpdateId].Keys, Buy, worstBid)| ==>
                   Published(r.bids, Buy, depth) == Published(x.bids[r.lastUpdateId], Buy, depth))
              && (depth <= |Known(x.asks[r.lastUpdateId].Keys, Sell, worstAsk)| ==>
                   Published(r.asks, Sell, depth) == Published(x.asks[r.lastUpdateId], Sell, depth))
  {
    hide Published;
    var r := ReceiveAll(b, fs);
    FeedTracks(x, b, fs, KnownPrices(Buy, worstBid), KnownPrices(Sell, worstAsk));
    if r.initialized {
      var bids, asks := x.bids[r.lastUpdateId], x.asks[r.lastUpdateId];
      if depth <= |Known(bids.Keys, Buy, worstBid)| {
        SameTopPublished(r.bids, bids, Buy, worstBid, depth);
      }
      if depth <= |Known(asks.Keys, Sell, worstAsk)| {
        SameTopPublished(r.asks, asks, Sell, worstAsk, depth);
      }
    }
  }

  /** Off the grid they differ: two prices closer than the tolerance are one level here and two there. */
  lemma OffGridDisagree(p: real, q: real, side: Side, timestamp: int)
    requires p != q && Near(p, q)
    ensures var ds := [Delta(Update, side, p, 1.0, timestamp), Delta(Update, side, q, 1.0, timestamp)];
            var m := SetAll(map[], [(p, 1.0), (q, 1.0)]);
            |Replay([], ds, side)| == 1 && |m| == 2 && !Agree(Replay([], ds, side), m, side)
  {
    var d0, d1 := Delta(Update, side, p, 1.0, timestamp), Delta(Update, side, q, 1.0, timestamp);
    var ds, cs := [d0, d1], [(p, 1.0), (q, 1.0)];
    assert ds[..1] == [d0] && [d0][..0] == [];
    assert Replay([], [d0], side) == Applied(Replay([], [], side), d0, side);
    assert Replay([], [d0], side) == [Level(p, 1.0, 0)];
    assert ds[1] == d1 && Replay([], ds, side) == Applied(Replay([], ds[..1], side), ds[1], side);
    assert Without([Level(p, 1.0, 0)], q) == [];
    assert cs[..1] == [(p, 1.0)] && [(p, 1.0)][..0] == [];
    var m0 := SetAll(map[], [(p, 1.0)]);
    assert m0 == SetLevel(SetAll(map[], []), (p, 1.0)) == map[p := 1.0];
    var m := SetAll(map[], cs);
    assert m == SetLevel(m0, (q, 1.0)) == map[p := 1.0, q := 1.0];
    assert m.Keys == {p, q};
    var x := Level(p, 1.0, 0);
    assert x !in Replay([], ds, side) && x.price in m && m[p] == 1.0;
  }
}
