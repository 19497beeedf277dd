/** The greedy walk of `calculate_vwap` over one ladder, and why it is the right one: it is the cheapest way to buy
    (dearest way to sell) the amount it fills. */
module Vwap {
  import opened Basics
  import opened Levels

  /** Money for an amount at a price. */
  function Worth(price: real, amount: real): real {
    price * amount
  }

  /** Money exchanged by the walk for quantity `q`: it stops at the first level that covers what remains. */
  function Cost(levels: seq<Level>, q: real): real {
    if levels == [] then 0.0
    else if q <= levels[0].size then Worth(levels[0].price, q)
    else Worth(levels[0].price, levels[0].size) + Cost(levels[1..], q - levels[0].size)
  }

  /** Quantity the walk fills. */
  function Filled(levels: seq<Level>, q: real): real {
    if levels == [] then 0.0
    else if q <= levels[0].size then q
    else levels[0].size + Filled(levels[1..], q - levels[0].size)
  }

  function Average(levels: seq<Level>, q: real): real {
    if Filled(levels, q) > 0.0 then Cost(levels, q) / Filled(levels, q) else 0.0
  }

  function TotalSize(levels: seq<Level>): real {
    if levels == [] then 0.0 else levels[0].size + TotalSize(levels[1..])
  }

  function Notional(levels: seq<Level>): real {
    if levels == [] then 0.0 else Worth(levels[0].price, levels[0].size) + Notional(levels[1..])
  }

  /** Price of the last level the walk touches. */
  function Marginal(levels: seq<Level>, q: real): real
    requires levels != []
  {
    if q <= levels[0].size || |levels| == 1 then levels[0].price else Marginal(levels[1..], q - levels[0].size)
  }

  // Any way of splitting a trade over the levels.

  function Sum(amounts: seq<real>): real {
    if amounts == [] then 0.0 else amounts[0] + Sum(amounts[1..])
  }

  function Value(levels: seq<Level>, amounts: seq<real>): real
    requires |levels| == |amounts|
  {
    if levels == [] then 0.0 else Worth(levels[0].price, amounts[0]) + Value(levels[1..], amounts[1..])
  }

  ghost predicate Feasible(levels: seq<Level>, amounts: seq<real>) {
    |amounts| == |levels| && forall i :: 0 <= i < |levels| ==> 0.0 <= amounts[i] <= levels[i].size
  }

  /** The split the walk makes. */
  function Greedy(levels: seq<Level>, q: real): seq<real>
    ensures |Greedy(levels, q)| == |levels|
  {
    if levels == [] then []
    else if q <= levels[0].size then [q] + Greedy(levels[1..], 0.0)
    else [levels[0].size] + Greedy(levels[1..], q - levels[0].size)
  }

  lemma {:induction false} TotalSizePositive(levels: seq<Level>)
    requires PositiveSizes(levels)
    ensures TotalSize(levels) >= 0.0
    ensures levels != [] ==> TotalSize(levels) >= levels[0].size > 0.0
  {
    if levels == [] {
    } else {
      TotalSizePositive(levels[1..]);
    }
  }

  lemma {:induction false} ZeroSplit(levels: seq<Level>)
    requires PositiveSizes(levels)
    ensures Feasible(levels, Greedy(levels, 0.0)) && Sum(Greedy(levels, 0.0)) == 0.0
    ensures Value(levels, Greedy(levels, 0.0)) == 0.0
  {
    hide Worth;
    if levels == [] {
    } else {
      ZeroSplit(levels[1..]);
      WorthAdds(levels[0].price, 0.0, 0.0);
    }
  }

  /** The walk fills as much as there is, and is itself one of the possible splits. */
  lemma {:induction false} WalkIsFeasible(levels: seq<Level>, q: real)
    requires PositiveSizes(levels) && q > 0.0
    ensures Filled(levels, q) == Min(q, TotalSize(levels))
    ensures Feasible(levels, Greedy(levels, q))
    ensures Sum(Greedy(levels, q)) == Filled(levels, q)
    ensures Value(levels, Greedy(levels, q)) == Cost(levels, q)
  {
    hide Worth;
    if levels == [] {
    } else {
      TotalSizePositive(levels[1..]);
      if q <= levels[0].size {
        ZeroSplit(levels[1..]);
      } else {
        WalkIsFeasible(levels[1..], q - levels[0].size);
      }
    }
  }

  lemma {:induction false} MarginalInRange(levels: seq<Level>, q: real, side: Side)
    requires Sorted(levels, side) && levels != []
    ensures Rank(side, levels[0].price) <= Rank(side, Marginal(levels, q))
  {
    if q <= levels[0].size || |levels| == 1 {
    } else {
      MarginalInRange(levels[1..], q - levels[0].size, side);
    }
  }

  // Facts about money; only these look inside the product.

  lemma WorthAdds(p: real, a: real, b: real)
    ensures Worth(p, a + b) == Worth(p, a) + Worth(p, b) && Worth(p, -a) == -Worth(p, a) && Worth(p, 0.0) == 0.0
  {
  }

  lemma WorthScales(side: Side, p: real, r: real, amount: real)
    requires Rank(side, p) <= Rank(side, r) && amount >= 0.0
    ensures Rank(side, Worth(p, amount)) <= Rank(side, Worth(r, amount))
  {
    var gap := Rank(side, r) - Rank(side, p);
    assert gap * amount == Rank(side, r * amount) - Rank(side, p * amount);
  }

  lemma WorthOrdersPrices(side: Side, p: real, r: real, amount: real)
    requires amount > 0.0 && Rank(side, Worth(p, amount)) <= Rank(side, Worth(r, amount))
    ensures Rank(side, p) <= Rank(side, r)
  {
    var gap := Rank(side, p) - Rank(side, r);
    assert gap * amount == Rank(side, p * amount) - Rank(side, r * amount);
    assert gap > 0.0 ==> gap * amount > 0.0;
  }

  lemma WorthOfAverage(cost: real, fill: real)
    requires fill != 0.0
    ensures Worth(cost / fill, fill) == cost
  {
  }

  lemma {:induction false} ValueAtLeast(levels: seq<Level>, amounts: seq<real>, p: real, side: Side)
    requires Feasible(levels, amounts)
    requires forall i :: 0 <= i < |levels| ==> Rank(side, p) <= Rank(side, levels[i].price)
    ensures Rank(side, Worth(p, Sum(amounts))) <= Rank(side, Value(levels, amounts)) && Sum(amounts) >= 0.0
  {
    hide Worth;
    if levels == [] {
      WorthAdds(p, 0.0, 0.0);
    } else {
      ValueAtLeast(levels[1..], amounts[1..], p, side);
      WorthScales(side, p, levels[0].price, amounts[0]);
      WorthAdds(p, amounts[0], Sum(amounts[1..]));
    }
  }

  /** The marginal price `m` supports the walk against every other split: what the split is worth beyond the walk is at
      least, at that price, the amount it takes beyond the walk. */
  lemma {:induction false} SupportingPrice(levels: seq<Level>, q: real, amounts: seq<real>, side: Side, m: real)
    requires Sorted(levels, side) && Feasible(levels, amounts)
    requires levels != [] ==> m == Marginal(levels, q)
    ensures Rank(side, Worth(m, Sum(amounts) - Filled(levels, q))) <= Rank(side,
      Value(levels, amounts) - Cost(levels, q))
    decreases |levels|
  {
    hide Worth;
    if levels == [] {
      WorthAdds(m, 0.0, 0.0);
    } else {
      var p, size, amount := levels[0].price, levels[0].size, amounts[0];
      var rest, amounts' := levels[1..], amounts[1..];
      if q <= size {
        ValueAtLeast(rest, amounts', p, side);
        WorthAdds(p, amount, -q);
        WorthAdds(p, q, 0.0);
        WorthAdds(p, amount - q, Sum(amounts'));
      } else {
        MarginalInRange(levels, q, side);
        SupportingPrice(rest, q - size, amounts', side, m);
        WorthScales(side, p, m, size - amount);
        WorthAdds(p, size - amount, amount);
        WorthAdds(m, size - amount, 0.0);
        WorthAdds(m, Sum(amounts') - Filled(rest, q - size), -(size - amount));
      }
    }
  }

  /** Greedy is optimal: no other split of the same amount is cheaper to buy or dearer to sell. */
  lemma GreedyIsOptimal(levels: seq<Level>, q: real, amounts: seq<real>, side: Side)
    requires Sorted(levels, side) && PositiveSizes(levels) && q > 0.0
    requires Feasible(levels, amounts) && Sum(amounts) == Min(q, TotalSize(levels))
    ensures Rank(side, Cost(levels, q)) <= Rank(side, Value(levels, amounts))
  {
    hide Worth;
    var m := if levels == [] then 0.0 else Marginal(levels, q);
    WalkIsFeasible(levels, q);
    SupportingPrice(levels, q, amounts, side, m);
    WorthAdds(m, 0.0, 0.0);
  }

  lemma WalkFills(levels: seq<Level>, q: real)
    requires PositiveSizes(levels) && levels != [] && q > 0.0
    ensures Filled(levels, q) == Min(q, TotalSize(levels)) > 0.0
    ensures Worth(Average(levels, q), Filled(levels, q)) == Cost(levels, q)
  {
    hide Worth;
    WalkIsFeasible(levels, q);
    TotalSizePositive(levels);
    WorthOfAverage(Cost(levels, q), Filled(levels, q));
  }

  /** The average price lies between the best price and the last consumed one. */
  lemma AverageBetween(levels: seq<Level>, q: real, side: Side)
    requires Sorted(levels, side) && PositiveSizes(levels) && levels != [] && q > 0.0
    ensures Rank(side, levels[0].price) <= Rank(side, Average(levels, q)) <= Rank(side, Marginal(levels, q))
  {
    hide Worth, Average;
    var f, a, m := Filled(levels, q), Average(levels, q), Marginal(levels, q);
    WalkFills(levels, q);
    WalkIsFeasible(levels, q);
    ValueAtLeast(levels, Greedy(levels, q), levels[0].price, side);
    WorthOrdersPrices(side, levels[0].price, a, f);
    // against the empty split: the walk's money is at most its quantity at the marginal price
    ZeroSplit(levels);
    SupportingPrice(levels, q, Greedy(levels, 0.0), side, m);
    WorthAdds(m, f, 0.0);
    WorthOrdersPrices(side, a, m, f);
  }

  /** A larger trade never gets a better average price. */
  lemma AverageMonotone(levels: seq<Level>, q: real, r: real, side: Side)
    requires Sorted(levels, side) && PositiveSizes(levels) && levels != [] && 0.0 < q <= r
    ensures Rank(side, Average(levels, q)) <= Rank(side, Average(levels, r))
  {
    hide Worth, Average;
    var f, g, a, b, m := Filled(levels, q), Filled(levels, r), Average(levels, q), Average(levels, r),
      Marginal(levels, q);
    WalkFills(levels, q);
    WalkFills(levels, r);
    WalkIsFeasible(levels, r);
    AverageBetween(levels, q, side);
    SupportingPrice(levels, q, Greedy(levels, r), side, m);
    WorthScales(side, a, m, g - f);
    WorthAdds(a, f, g - f);
    WorthOrdersPrices(side, a, b, g);
  }

  // Depth available at a price.

  /** Total size of the levels at `p` or better. */
  function Volume(levels: seq<Level>, side: Side, p: real): real {
    if levels == [] then 0.0
    else (if Rank(side, levels[0].price) <= Rank(side, p) then levels[0].size else 0.0) + Volume(levels[1..], side, p)
  }

  lemma {:induction false} NoVolume(levels: seq<Level>, side: Side, p: real)
    requires forall i :: 0 <= i < |levels| ==> Rank(side, p) < Rank(side, levels[i].price)
    ensures Volume(levels, side, p) == 0.0
  {
    if levels == [] {
    } else {
      NoVolume(levels[1..], side, p);
    }
  }

  /** On a sorted ladder the volume at a price is the total of a prefix: exactly the levels at the price or better. */
  lemma {:induction false} VolumeIsPrefix(levels: seq<Level>, side: Side, p: real) returns (k: nat)
    requires Sorted(levels, side)
    ensures k <= |levels| && Volume(levels, side, p) == TotalSize(levels[..k])
    ensures forall i :: 0 <= i < |levels| ==> (i < k <==> Rank(side, levels[i].price) <= Rank(side, p))
  {
    if levels == [] || Rank(side, p) < Rank(side, levels[0].price) {
      NoVolume(levels, side, p);
      k := 0;
    } else {
      k := VolumeIsPrefix(levels[1..], side, p);
      assert levels[..k + 1] == [levels[0]] + levels[1..][..k];
      k := k + 1;
    }
  }

  lemma {:induction false} VolumeMonotone(levels: seq<Level>, side: Side, p: real, r: real)
    requires PositiveSizes(levels) && Rank(side, p) <= Rank(side, r)
    ensures 0.0 <= Volume(levels, side, p) <= Volume(levels, side, r) <= TotalSize(levels)
  {
    if levels == [] {
    } else {
      VolumeMonotone(levels[1..], side, p, r);
    }
  }

  /** Duality: a trade reaches no further than price `p` exactly when it fits in the volume at `p`. */
  lemma {:induction false} MarginalIffVolume(levels: seq<Level>, q: real, side: Side, p: real)
    requires Sorted(levels, side) && PositiveSizes(levels) && 0.0 < q <= TotalSize(levels)
    ensures levels != []
    ensures Rank(side, Marginal(levels, q)) <= Rank(side, p) <==> q <= Volume(levels, side, p)
  {
    var rest := levels[1..];
    if Rank(side, p) < Rank(side, levels[0].price) {
      NoVolume(levels, side, p);
      MarginalInRange(levels, q, side);
    } else if q <= levels[0].size {
      VolumeMonotone(rest, side, p, p);
    } else {
      MarginalIffVolume(rest, q - levels[0].size, side, p);
    }
  }

  /** A trade that fits in the volume at `p` averages `p` or better. */
  lemma VolumeBoundsAverage(levels: seq<Level>, q: real, side: Side, p: real)
    requires Sorted(levels, side) && PositiveSizes(levels) && 0.0 < q <= Volume(levels, side, p)
    ensures Rank(side, Average(levels, q)) <= Rank(side, p)
  {
    VolumeMonotone(levels, side, p, p);
    MarginalIffVolume(levels, q, side, p);
    AverageBetween(levels, q, side);
  }

  /** Trading the whole ladder costs its notional value. */
  lemma {:induction false} FullWalk(levels: seq<Level>)
    requires PositiveSizes(levels)
    ensures Cost(levels, TotalSize(levels)) == Notional(levels)
    ensures Filled(levels, TotalSize(levels)) == TotalSize(levels)
  {
    hide Worth;
    if levels == [] {
    } else {
      TotalSizePositive(levels);
      TotalSizePositive(levels[1..]);
      FullWalk(levels[1..]);
    }
  }
}
