/** `OrderBook`: two ladders kept in vectors, statistics cached beside them. */
module OrderBooks {
  import opened Basics
  import opened Levels
  import opened Vwap
  import opened Deltas

  datatype Stats = Stats(spread: real, midPrice: real, weightedMidPrice: real, imbalance: real,
                         bidVolume: real, askVolume: real, bidLevels: nat, askLevels: nat)

  const NO_STATS := Stats(0.0, 0.0, 0.0, 0.0, 0.0, 0.0, 0, 0)

  function StatsOf(bids: seq<Level>, asks: seq<Level>): Stats {
    if bids == [] || asks == [] then NO_STATS
    else
      var bestBid, bestAsk := bids[0].price, asks[0].price;
      var bidTotal, askTotal := TotalSize(bids), TotalSize(asks);
      var mid := (bestBid + bestAsk) / 2.0;
      Stats(
        bestAsk - bestBid,
        mid,
        if bidTotal > 0.0 && askTotal > 0.0 then (Notional(bids) / bidTotal + Notional(asks) / askTotal) / 2.0 else mid,
        if bidTotal + askTotal > 0.0 then (bidTotal - askTotal) / (bidTotal + askTotal) else 0.0,
        bidTotal, askTotal, |bids|, |asks|)
  }

  predicate Crossed(bids: seq<Level>, asks: seq<Level>) {
    bids != [] && asks != [] && bids[0].price >= asks[0].price
  }

  function Impact(vwap: real, mid: real): real {
    if vwap == 0.0 || mid == 0.0 then 0.0 else (vwap - mid) / mid
  }

  /** A two-sided book in the state every good run keeps it in, quoted at positive prices. */
  ghost predicate Tradable(bids: seq<Level>, asks: seq<Level>) {
    && Good(bids, Buy) && Good(asks, Sell) && bids != [] && asks != [] && !Crossed(bids, asks)
    && (forall i :: 0 <= i < |bids| ==> bids[i].price > 0.0)
  }

  lemma InsertBehind(levels: seq<Level>, i: nat, level: Level, side: Side)
    requires i < |levels| && Rank(side, levels[i].price) < Rank(side, level.price)
    ensures levels[..i] + Insert(levels[i..], level, side) == levels[..i + 1] + Insert(levels[i + 1..], level, side)
  {
    assert levels[i..][1..] == levels[i + 1..] && levels[..i + 1] == levels[..i] + [levels[i]];
  }

  lemma InsertHere(levels: seq<Level>, level: Level, side: Side)
    requires levels == [] || Rank(side, levels[0].price) >= Rank(side, level.price)
    ensures Insert(levels, level, side) == [level] + levels
  {
  }

  /** The walk so far: what it has spent and filled, and what the rest of the ladder would add. */
  ghost predicate Walked(levels: seq<Level>, quantity: real, i: nat, remaining: real, cost: real, filled: real,
                         stopped: bool)
    requires i <= |levels|
  {
    && cost + (if stopped then 0.0 else Cost(levels[i..], remaining)) == Cost(levels, quantity)
    && filled + (if stopped then 0.0 else Filled(levels[i..], remaining)) == Filled(levels, quantity)
  }

  lemma WalkStarts(levels: seq<Level>, quantity: real)
    ensures Walked(levels, quantity, 0, quantity, 0.0, 0.0, false)
  {
    assert levels[0..] == levels;
  }

  lemma WalkStep(levels: seq<Level>, quantity: real, i: nat, remaining: real, cost: real, filled: real)
    requires i < |levels| && Walked(levels, quantity, i, remaining, cost, filled, false)
    ensures var consumed := Min(remaining, levels[i].size);
            var spent := cost + Worth(levels[i].price, consumed);
            if remaining - consumed <= 0.0 then Walked(levels, quantity, i, 0.0, spent, filled + consumed, true)
            else Walked(levels, quantity, i + 1, remaining - consumed, spent, filled + consumed, false)
  {
    hide Worth;
    assert levels[i..][1..] == levels[i + 1..] && levels[i..][0] == levels[i];
  }

  lemma WalkEnds(levels: seq<Level>, quantity: real, i: nat, remaining: real, cost: real, filled: real, stopped: bool)
    requires i <= |levels| && (stopped || i == |levels|)
    requires Walked(levels, quantity, i, remaining, cost, filled, stopped)
    ensures cost == Cost(levels, quantity) && filled == Filled(levels, quantity)
  {
    assert i == |levels| ==> levels[i..] == [];
  }

  // What a trade comes to, said of the sides of the book.

  /** The price pays for the amount at no more than any way of buying it from these asks, and at no less than the
      best. */
  ghost predicate BoughtBest(asks: seq<Level>, quantity: real, price: real) {
    && asks != [] && asks[0].price <= price
    && forall amounts :: Feasible(asks, amounts) && Sum(amounts) == Min(quantity, TotalSize(asks)) ==>
         Worth(price, Sum(amounts)) <= Value(asks, amounts)
  }

  /** The price earns at least what any way of selling the amount to these bids does, and no more than the best. */
  ghost predicate SoldBest(bids: seq<Level>, quantity: real, price: real) {
    && bids != [] && 0.0 < price <= bids[0].price
    && forall amounts :: Feasible(bids, amounts) && Sum(amounts) == Min(quantity, TotalSize(bids)) ==>
         Worth(price, Sum(amounts)) >= Value(bids, amounts)
  }

  lemma AverageIsBest(bids: seq<Level>, asks: seq<Level>, q: real)
    requires Tradable(bids, asks) && q > 0.0
    ensures BoughtBest(asks, q, Average(asks, q)) && SoldBest(bids, q, Average(bids, q))
  {
    hide Worth, Cost, Filled, Average;
    AverageBetween(asks, q, Sell);
    WalkFills(asks, q);
    forall amounts | Feasible(asks, amounts) && Sum(amounts) == Min(q, TotalSize(asks))
      ensures Worth(Average(asks, q), Sum(amounts)) <= Value(asks, amounts)
    {
      GreedyIsOptimal(asks, q, amounts, Sell);
    }
    AverageBetween(bids, q, Buy);
    MarginalIsListed(bids, q);
    WalkFills(bids, q);
    forall amounts | Feasible(bids, amounts) && Sum(amounts) == Min(q, TotalSize(bids))
      ensures Worth(Average(bids, q), Sum(amounts)) >= Value(bids, amounts)
    {
      GreedyIsOptimal(bids, q, amounts, Buy);
    }
  }

  /** Impact is the relative distance from the mid price. */
  lemma ImpactMeans(vwap: real, mid: real)
    ensures vwap == 0.0 || mid == 0.0 ==> Impact(vwap, mid) == 0.0
    ensures vwap != 0.0 && mid != 0.0 ==> Worth(1.0 + Impact(vwap, mid), mid) == vwap
  {
    if mid != 0.0 {
      var x := (vwap - mid) / mid;
      assert x * mid == vwap - mid;
      assert (1.0 + x) * mid == mid + x * mid;
    }
  }

  lemma ImpactIs(vwap: real, mid: real)
    ensures Impact(vwap, mid) == if vwap == 0.0 || mid == 0.0 then 0.0 else (vwap - mid) / mid
  {
  }

  lemma ImpactIsBest(bids: seq<Level>, asks: seq<Level>, q: real)
    requires Tradable(bids, asks) && q > 0.0
    ensures var mid := (bids[0].price + asks[0].price) / 2.0;
            var up, down := Impact(Average(asks, q), mid), Impact(Average(bids, q), mid);
            && mid == StatsOf(bids, asks).midPrice
            && up > 0.0 && BoughtBest(asks, q, Worth(1.0 + up, mid))
            && -1.0 < down < 0.0 && SoldBest(bids, q, Worth(1.0 + down, mid))
  {
    hide Cost, Filled, Worth, Impact, BoughtBest, SoldBest, Average;
    var mid := (bids[0].price + asks[0].price) / 2.0;
    AverageIsBest(bids, asks, q);
    BestIsPositive(bids, asks, q);
    ImpactSigns(bids, asks, q, q);
    ImpactMeans(Average(asks, q), mid);
    ImpactMeans(Average(bids, q), mid);
  }

  lemma BestIsPositive(bids: seq<Level>, asks: seq<Level>, q: real)
    requires Tradable(bids, asks) && BoughtBest(asks, q, Average(asks, q)) && SoldBest(bids, q, Average(bids, q))
    ensures Average(asks, q) > 0.0 && Average(bids, q) > 0.0
  {
    hide Average;
  }

  /** A sorted book is crossed exactly if some bid meets some ask. */
  lemma CrossedIff(bids: seq<Level>, asks: seq<Level>)
    requires Sorted(bids, Buy) && Sorted(asks, Sell)
    ensures Crossed(bids, asks) <==>
              exists i, j :: 0 <= i < |bids| && 0 <= j < |asks| && bids[i].price >= asks[j].price
  {
  }

  /** What can be bought up to a price averages that price or less, and mirrored for selling. */
  lemma DepthLimitsPrice(bids: seq<Level>, asks: seq<Level>, q: real, p: real)
    requires Tradable(bids, asks) && q > 0.0
    ensures q <= Volume(asks, Sell, p) ==> Average(asks, q) <= p
    ensures q <= Volume(bids, Buy, p) ==> Average(bids, q) >= p
  {
    hide Average, Volume;
    if q <= Volume(asks, Sell, p) {
      VolumeBoundsAverage(asks, q, Sell, p);
    }
    if q <= Volume(bids, Buy, p) {
      VolumeBoundsAverage(bids, q, Buy, p);
    }
  }

  lemma VolumeLimits(bids: seq<Level>, asks: seq<Level>, p: real)
    requires Tradable(bids, asks)
    ensures forall q :: 0.0 < q <= Volume(asks, Sell, p) ==> Average(asks, q) <= p
    ensures forall q :: 0.0 < q <= Volume(bids, Buy, p) ==> Average(bids, q) >= p
  {
    hide Average, Volume;
    forall q | 0.0 < q
      ensures q <= Volume(asks, Sell, p) ==> Average(asks, q) <= p
      ensures q <= Volume(bids, Buy, p) ==> Average(bids, q) >= p
    {
      DepthLimitsPrice(bids, asks, q, p);
    }
  }

  class OrderBook {
    var instrumentId: string
    var bids: seq<Level>
    var asks: seq<Level>
    var timestamp: int
    var sequence: nat
    var stats: Stats

    /** The cached statistics describe the ladders. */
    ghost predicate Valid()
      reads this
    {
      stats == StatsOf(bids, asks)
    }

    constructor (instrumentId: string, bids: seq<Level>, asks: seq<Level>, timestamp: int, sequence: nat)
      ensures Valid()
      ensures this.instrumentId == instrumentId && this.bids == bids && this.asks == asks
      ensures this.timestamp == timestamp && this.sequence == sequence
    {
      this.instrumentId, this.bids, this.asks := instrumentId, bids, asks;
      this.timestamp, this.sequence, this.stats := timestamp, sequence, NO_STATS;
      new;
      ComputeStats();
    }

    static method Totals(levels: seq<Level>) returns (quantity: real, weighted: real)
      ensures quantity == TotalSize(levels) && weighted == Notional(levels)
    {
      quantity, weighted := 0.0, 0.0;
      for i := 0 to |levels|
        invariant quantity + TotalSize(levels[i..]) == TotalSize(levels)
        invariant weighted + Notional(levels[i..]) == Notional(levels)
      {
        quantity := quantity + levels[i].size;
        weighted := weighted + levels[i].price * levels[i].size;
      }
    }

    method ComputeStats()
      modifies this`stats
      ensures Valid() && (bids == [] || asks == [] ==> stats == Stats(0.0, 0.0, 0.0, 0.0, 0.0, 0.0, 0, 0))
    {
      stats := NO_STATS;
      if bids == [] || asks == [] {
        return;
      }
      var bestBid, bestAsk := bids[0].price, asks[0].price;
      var spread, mid := bestAsk - bestBid, (bestBid + bestAsk) / 2.0;
      var bidTotal, bidWeighted := Totals(bids);
      var askTotal, askWeighted := Totals(asks);
      var imbalance, weightedMid := 0.0, mid;
      var total := bidTotal + askTotal;
      if total > 0.0 {
        imbalance := (bidTotal - askTotal) / total;
      }
      if bidTotal > 0.0 && askTotal > 0.0 {
        weightedMid := (bidWeighted / bidTotal + askWeighted / askTotal) / 2.0;
      }
      stats := Stats(spread, mid, weightedMid, imbalance, bidTotal, askTotal, |bids|, |asks|);
    }

    static method RemoveLevel(levels: seq<Level>, price: real) returns (kept: seq<Level>)
      ensures kept == Without(levels, price)
    {
      kept := [];
      for i := 0 to |levels|
        invariant kept + Without(levels[i..], price) == Without(levels, price)
      {
        if !Near(levels[i].price, price) {
          kept := kept + [levels[i]];
        }
      }
    }

    static method InsertLevel(levels: seq<Level>, level: Level, descending: bool) returns (result: seq<Level>)
      ensures result == Insert(levels, level, if descending then Buy else Sell)
    {
      hide Insert;
      ghost var side := if descending then Buy else Sell;
      var i := 0;
      while i < |levels| && (if descending then levels[i].price > level.price else levels[i].price < level.price)
        invariant 0 <= i <= |levels|
        invariant levels[..i] + Insert(levels[i..], level, side) == Insert(levels, level, side)
      {
        InsertBehind(levels, i, level, side);
        i := i + 1;
      }
      InsertHere(levels[i..], level, side);
      result := levels[..i] + [level] + levels[i..];
    }

    method ApplyDelta(d: Delta) returns (ok: bool)
      requires Valid()
      modifies this`bids, this`asks, this`timestamp, this`stats
      ensures Valid()
      ensures ok == !d.kind.Snapshot?
      ensures bids == Applied(old(bids), d, Buy) && asks == Applied(old(asks), d, Sell)
      ensures timestamp == if ok then d.timestamp else old(timestamp)
    {
      var levels, descending := if d.side.Buy? then bids else asks, d.side.Buy?;
      match d.kind {
        case Add | Update =>
          levels := RemoveLevel(levels, d.price);
          if d.size > 0.0 {
            levels := InsertLevel(levels, Level(d.price, d.size, 0), descending);
          }
        case Delete =>
          levels := RemoveLevel(levels, d.price);
        case Snapshot =>
          return false;
      }
      if d.side.Buy? {
        bids := levels;
      } else {
        asks := levels;
      }
      timestamp := d.timestamp;
      ComputeStats();
      return true;
    }

    method Clear()
      modifies this`bids, this`asks, this`sequence, this`stats
      ensures Valid() && bids == [] && asks == [] && sequence == 0
    {
      bids, asks, sequence, stats := [], [], 0, NO_STATS;
    }

    /** The ladder a market order of this side trades against. */
    function Against(side: Side): seq<Level>
      reads this`bids, this`asks
    {
      if side.Buy? then asks else bids
    }

    method CalculateVwap(side: Side, quantity: real) returns (vwap: real)
      ensures vwap == Average(Against(side), quantity)
      ensures Tradable(bids, asks) && quantity > 0.0 ==>
        if side.Buy? then BoughtBest(asks, quantity, vwap) else SoldBest(bids, quantity, vwap)
    {
      hide Cost, Filled, Worth, Tradable, BoughtBest, SoldBest;
      var levels := if side.Buy? then asks else bids;
      var remaining, totalCost, totalQty := quantity, 0.0, 0.0;
      var i, stopped := 0, false;
      WalkStarts(levels, quantity);
      while i < |levels| && !stopped
        invariant 0 <= i <= |levels|
        invariant Walked(levels, quantity, i, remaining, totalCost, totalQty, stopped)
        decreases |levels| - i, !stopped
      {
        WalkStep(levels, quantity, i, remaining, totalCost, totalQty);
        var consumed := Min(remaining, levels[i].size);
        totalCost := totalCost + Worth(levels[i].price, consumed);
        totalQty := totalQty + consumed;
        remaining := remaining - consumed;
        if remaining <= 0.0 {
          stopped := true;
        } else {
          i := i + 1;
        }
      }
      WalkEnds(levels, quantity, i, remaining, totalCost, totalQty, stopped);
      if Tradable(bids, asks) && quantity > 0.0 {
        AverageIsBest(bids, asks, quantity);
      }
      if totalQty > 0.0 {
        return totalCost / totalQty;
      }
      return 0.0;
    }

    method CalculateMarketImpact(side: Side, quantity: real) returns (impact: real)
      requires Valid()
      ensures impact == Impact(Average(Against(side), quantity), StatsOf(bids, asks).midPrice)
      ensures Tradable(bids, asks) && quantity > 0.0 ==>
        var mid := (bids[0].price + asks[0].price) / 2.0;
        if side.Buy? then impact > 0.0 && BoughtBest(asks, quantity, Worth(1.0 + impact, mid))
        else -1.0 < impact < 0.0 && SoldBest(bids, quantity, Worth(1.0 + impact, mid))
    {
      hide Cost, Filled, Worth, Impact, BoughtBest, SoldBest, Average;
      if Tradable(bids, asks) && quantity > 0.0 {
        ImpactIsBest(bids, asks, quantity);
      }
      ImpactIs(Average(Against(side), quantity), StatsOf(bids, asks).midPrice);

      var vwap := CalculateVwap(side, quantity);
      if vwap == 0.0 {
        return 0.0;
      }
      var reference := stats.midPrice;
      if reference == 0.0 {
        return 0.0;
      }
      return (vwap - reference) / reference;
    }

    method GetVolumeAtLevel(side: Side, priceLevel: real) returns (cumulative: real)
      ensures cumulative == Volume(if side.Buy? then bids else asks, side, priceLevel)
      ensures Tradable(bids, asks) ==> forall q :: 0.0 < q <= cumulative ==>
        if side.Buy? then Average(bids, q) >= priceLevel else Average(asks, q) <= priceLevel
    {
      if Tradable(bids, asks) {
        VolumeLimits(bids, asks, priceLevel);
      }
      var levels := if side.Buy? then bids else asks;
      cumulative := 0.0;
      for i := 0 to |levels|
        invariant cumulative + Volume(levels[i..], side, priceLevel) == Volume(levels, side, priceLevel)
      {
        if (if side.Buy? then levels[i].price >= priceLevel else levels[i].price <= priceLevel) {
          cumulative := cumulative + levels[i].size;
        }
      }
    }

    method IsCrossed() returns (crossed: bool)
      ensures crossed == Crossed(bids, asks)
      ensures Sorted(bids, Buy) && Sorted(asks, Sell) ==>
        (crossed <==> exists i, j :: 0 <= i < |bids| && 0 <= j < |asks| && bids[i].price >= asks[j].price)
    {
      if Sorted(bids, Buy) && Sorted(asks, Sell) {
        CrossedIff(bids, asks);
      }
      if bids == [] || asks == [] {
        return false;
      }
      return bids[0].price >= asks[0].price;
    }

    static method IsSorted(levels: seq<Level>, side: Side) returns (ok: bool)
      ensures ok == Sorted(levels, side)
    {
      var i := 1;
      while i < |levels|
        invariant 1 <= i && (i <= |levels| ==> Sorted(levels[..i], side))
        invariant i > |levels| ==> |levels| == 0
      {
        if Rank(side, levels[i].price) < Rank(side, levels[i - 1].price) {
          return false;
        }
        i := i + 1;
      }
      assert levels != [] ==> levels[..i] == levels;
      return true;
    }

    method Validate() returns (ok: bool)
      ensures ok == (Sorted(bids, Buy) && Sorted(asks, Sell) && !Crossed(bids, asks))
    {
      var sortedBids := IsSorted(bids, Buy);
      if !sortedBids {
        return false;
      }
      var sortedAsks := IsSorted(asks, Sell);
      if !sortedAsks {
        return false;
      }
      var crossed := IsCrossed();
      return !crossed;
    }
  }

  /** On every book a run of deltas can produce from good sides, validation is the test for crossing. */
  lemma RunsValidateUnlessCrossed(bidsBefore: seq<Level>, asksBefore: seq<Level>, ds: seq<Delta>)
    requires Good(bidsBefore, Buy) && Good(asksBefore, Sell)
    ensures var bids, asks := Replay(bidsBefore, ds, Buy), Replay(asksBefore, ds, Sell);
            (Sorted(bids, Buy) && Sorted(asks, Sell) && !Crossed(bids, asks)) == !Crossed(bids, asks)
  {
    ReplayStands(bidsBefore, ds, Buy);
    ReplayStands(asksBefore, ds, Sell);
  }

  /** Market impact has the sign of the side that pays it, and only grows with the amount. */
  lemma ImpactSigns(bids: seq<Level>, asks: seq<Level>, q: real, r: real)
    requires Tradable(bids, asks) && 0.0 < q <= r
    ensures var mid := StatsOf(bids, asks).midPrice;
            && 0.0 < Impact(Average(asks, q), mid) <= Impact(Average(asks, r), mid)
            && 0.0 > Impact(Average(bids, q), mid) >= Impact(Average(bids, r), mid) > -1.0
  {
    var mid := StatsOf(bids, asks).midPrice;
    AverageBetween(asks, q, Sell);
    AverageMonotone(asks, q, r, Sell);
    Ratio(mid, Average(asks, q), Average(asks, r));
    AverageBetween(bids, q, Buy);
    AverageBetween(bids, r, Buy);
    AverageMonotone(bids, q, r, Buy);
    MarginalIsListed(bids, r);
    Ratio(mid, Average(bids, r), Average(bids, q));
  }

  lemma {:induction false} MarginalIsListed(levels: seq<Level>, q: real)
    requires levels != []
    ensures exists i :: 0 <= i < |levels| && levels[i].price == Marginal(levels, q)
  {
    if q <= levels[0].size || |levels| == 1 {
      assert levels[0].price == Marginal(levels, q);
    } else {
      MarginalIsListed(levels[1..], q - levels[0].size);
      var i :| 0 <= i < |levels[1..]| && levels[1..][i].price == Marginal(levels[1..], q - levels[0].size);
      assert levels[i + 1].price == Marginal(levels, q);
    }
  }

  lemma Ratio(mid: real, a: real, b: real)
    requires mid > 0.0 && 0.0 < a <= b
    ensures -1.0 < (a - mid) / mid <= (b - mid) / mid
    ensures a > mid ==> (a - mid) / mid > 0.0
    ensures b < mid ==> (b - mid) / mid < 0.0
  {
    var u, v := (a - mid) / mid, (b - mid) / mid;
    assert u * mid == a - mid && v * mid == b - mid;
    assert u <= -1.0 ==> u * mid <= -mid;
    assert u > v ==> u * mid > v * mid;
  }

  /** The statistics of a tradable book: positive spread, imbalance strictly inside (-1, 1), and a weighted mid that is
      the mean of the two full-depth averages and so never better than the best quotes. */
  lemma StatsAreSound(bids: seq<Level>, asks: seq<Level>)
    requires Tradable(bids, asks)
    ensures var s := StatsOf(bids, asks);
            && s.spread == asks[0].price - bids[0].price > 0.0
            && s.midPrice - bids[0].price == asks[0].price - s.midPrice > 0.0
            && s.bidVolume == TotalSize(bids) > 0.0 && s.askVolume == TotalSize(asks) > 0.0
            && s.bidLevels == |bids| && s.askLevels == |asks|
            && Worth(s.imbalance, s.bidVolume + s.askVolume) == s.bidVolume - s.askVolume
            && -1.0 < s.imbalance < 1.0
            && (s.imbalance > 0.0 <==> s.bidVolume > s.askVolume)
            && s.weightedMidPrice == (Average(bids, TotalSize(bids)) + Average(asks, TotalSize(asks))) / 2.0
            && Average(bids, TotalSize(bids)) <= bids[0].price && asks[0].price <= Average(asks, TotalSize(asks))
  {
    TotalSizePositive(bids);
    TotalSizePositive(asks);
    FullWalk(bids);
    FullWalk(asks);
    AverageBetween(bids, TotalSize(bids), Buy);
    AverageBetween(asks, TotalSize(asks), Sell);
    Share(TotalSize(bids), TotalSize(asks));
    WorthOfAverage(TotalSize(bids) - TotalSize(asks), TotalSize(bids) + TotalSize(asks));
  }

  lemma Share(x: real, y: real)
    requires x > 0.0 && y > 0.0
    ensures -1.0 < (x - y) / (x + y) < 1.0
    ensures (x - y) / (x + y) > 0.0 <==> x > y
  {
    var t := x + y;
    var r := (x - y) / t;
    assert r * t == x - y;
    assert r >= 1.0 ==> r * t >= t;
    assert r <= -1.0 ==> r * t <= -t;
    assert r > 0.0 ==> r * t > 0.0;
    assert r <= 0.0 ==> r * t <= 0.0;
  }
}
