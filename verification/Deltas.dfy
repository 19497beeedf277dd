/** Incremental updates of a ladder: what one delta does, and what any run of deltas leaves. */
module Deltas {
  import opened Levels

  datatype DeltaKind = Add | Update | Delete | Snapshot

  datatype Delta = Delta(kind: DeltaKind, side: Side, price: real, size: real, timestamp: int)

  /** The delta concerns this side at all (a snapshot delta is refused). */
  predicate Touches(d: Delta, side: Side) {
    d.side == side && !d.kind.Snapshot?
  }

  /** The level the delta leaves behind, if any. */
  predicate Puts(d: Delta, side: Side, x: Level) {
    Touches(d, side) && !d.kind.Delete? && d.size > 0.0 && x == Level(d.price, d.size, 0)
  }

  function Applied(levels: seq<Level>, d: Delta, side: Side): seq<Level> {
    if !Touches(d, side) then levels
    else if d.kind.Delete? || d.size <= 0.0 then Without(levels, d.price)
    else Insert(Without(levels, d.price), Level(d.price, d.size, 0), side)
  }

  function Replay(levels: seq<Level>, ds: seq<Delta>, side: Side): seq<Level> {
    if ds == [] then levels else Applied(Replay(levels, ds[..|ds| - 1], side), ds[|ds| - 1], side)
  }

  /** One delta keeps the ladder good, and its members are exactly the far ones and the one it puts. */
  lemma AppliedGood(levels: seq<Level>, d: Delta, side: Side)
    requires Good(levels, side)
    ensures Good(Applied(levels, d, side), side)
    ensures forall x :: x in Applied(levels, d, side) <==>
                          (x in levels && !(Touches(d, side) && Near(x.price, d.price))) || Puts(d, side, x)
  {
    var kept, put := Without(levels, d.price), Level(d.price, d.size, 0);
    WithoutGood(levels, d.price, side);
    forall x ensures x in kept <==> x in levels && !Near(x.price, d.price) {
      WithoutMembers(levels, d.price, x);
    }
    if d.size > 0.0 {
      InsertGood(kept, put, side);
      forall x ensures x in Insert(kept, put, side) <==> x == put || x in kept {
        InsertMembers(kept, put, side, x);
      }
    }
  }

  lemma {:induction false} InsertLength(levels: seq<Level>, level: Level, side: Side)
    ensures |Insert(levels, level, side)| == |levels| + 1
  {
    if levels == [] || Rank(side, levels[0].price) >= Rank(side, level.price) {
    } else {
      InsertLength(levels[1..], level, side);
    }
  }

  /** A delta makes room for its level by displacing at most two existing ones. */
  lemma DeltaDisplacesAtMostTwo(levels: seq<Level>, d: Delta, side: Side)
    requires Good(levels, side)
    ensures |levels| - 2 <= |Applied(levels, d, side)| <= |levels| + 1
    ensures (exists x :: Puts(d, side, x)) ==> |levels| - 1 <= |Applied(levels, d, side)|
  {
    DisplacesAtMostTwo(levels, d.price, side);
    InsertLength(Without(levels, d.price), Level(d.price, d.size, 0), side);
  }

  /** Two is reached: levels exactly one tolerance apart, and a delta priced between them. */
  lemma TwoCanBeDisplaced() returns (levels: seq<Level>, d: Delta)
    ensures Good(levels, Sell) && |levels| == 2 && Applied(levels, d, Sell) == []
  {
    levels := [Level(1.0, 1.0, 0), Level(1.0 + EPSILON, 1.0, 0)];
    d := Delta(Delete, Sell, 1.0 + EPSILON / 2.0, 0.0, 0);
    assert Near(levels[0].price, d.price) && Near(levels[1].price, d.price);
    assert levels[1..][0] == levels[1] && levels[1..][1..] == [];
    assert Without(levels[1..], d.price) == [];
  }

  /** A level of the starting ladder, or one put by delta `i`, that nothing later removed. */
  ghost predicate Lasting(ds: seq<Delta>, i: nat, side: Side, x: Level) {
    forall j :: i <= j < |ds| ==> !(Touches(ds[j], side) && Near(x.price, ds[j].price))
  }

  ghost predicate Standing(levels: seq<Level>, ds: seq<Delta>, side: Side, x: Level) {
    || (x in levels && Lasting(ds, 0, side, x))
    || exists i :: 0 <= i < |ds| && Puts(ds[i], side, x) && Lasting(ds, i + 1, side, x)
  }

  /** The book invariant over every run of deltas, and the contents the run leaves. */
  lemma {:induction false} ReplayStands(levels: seq<Level>, ds: seq<Delta>, side: Side)
    requires Good(levels, side)
    ensures Good(Replay(levels, ds, side), side)
    ensures forall x :: x in Replay(levels, ds, side) <==> Standing(levels, ds, side, x)
  {
    if ds != [] {
      var n := |ds| - 1;
      var before, d := ds[..n], ds[n];
      ReplayStands(levels, before, side);
      AppliedGood(Replay(levels, before, side), d, side);
      forall x ensures Standing(levels, ds, side, x) <==>
                         (Standing(levels, before, side, x) && !(Touches(d, side) && Near(x.price, d.price)))
                         || Puts(d, side, x)
      {
        StandingExtends(levels, before, d, side, x);
        assert ds == before + [d];
      }
    }
  }

  lemma StandingExtends(levels: seq<Level>, before: seq<Delta>, d: Delta, side: Side, x: Level)
    ensures Standing(levels, before + [d], side, x) <==>
              (Standing(levels, before, side, x) && !(Touches(d, side) && Near(x.price, d.price))) || Puts(d, side, x)
  {
    var ds, n := before + [d], |before|;
    assert ds[n] == d && forall j :: 0 <= j < n ==> ds[j] == before[j];
    assert forall i :: 0 <= i <= n ==>
      (Lasting(ds, i, side, x) <==> Lasting(before, i, side, x) && !(Touches(d, side) && Near(x.price, d.price)));
    assert Lasting(ds, n + 1, side, x);
  }
}
