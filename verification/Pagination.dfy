/** `request_bars`: historical klines fetched in pages of at most a thousand. */
module Pagination {

  datatype Kline = Kline(openTime: int, closeTime: int, payload: string)

  const PAGE_LIMIT := 1000

  /** The exchange's klines, in strictly rising order of open time. */
  ghost predicate Rising(all: seq<Kline>) {
    forall i, j :: 0 <= i < j < |all| ==> all[i].openTime < all[j].openTime
  }

  /** All klines that open between two times, inclusive. */
  function Between(all: seq<Kline>, start: int, end: int): seq<Kline> {
    if all == [] then []
    else if start <= all[0].openTime <= end then [all[0]] + Between(all[1..], start, end)
    else Between(all[1..], start, end)
  }

  /** What the server answers: the first klines of the range, up to the page limit. */
  function Page(all: seq<Kline>, start: int, end: int): seq<Kline> {
    var range := Between(all, start, end);
    if |range| < PAGE_LIMIT then range else range[..PAGE_LIMIT]
  }

  lemma {:induction false} BetweenMembers(all: seq<Kline>, start: int, end: int, k: Kline)
    ensures k in Between(all, start, end) <==> k in all && start <= k.openTime <= end
  {
    if all != [] {
      BetweenMembers(all[1..], start, end, k);
      assert all == [all[0]] + all[1..];
    }
  }

  lemma {:induction false} BetweenRises(all: seq<Kline>, start: int, end: int)
    requires Rising(all)
    ensures Rising(Between(all, start, end))
  {
    if all != [] {
      BetweenRises(all[1..], start, end);
      forall k | k in Between(all[1..], start, end) ensures all[0].openTime < k.openTime {
        BetweenMembers(all[1..], start, end, k);
      }
    }
  }

  lemma {:induction false} RisingIsUnique(a: seq<Kline>, b: seq<Kline>)
    requires Rising(a) && Rising(b) && forall k :: k in a <==> k in b
    ensures a == b
  {
    if a + b != [] {
      assert (a + b)[0] in a + b;
      assert (a + b)[0] in a && (a + b)[0] in b;
      assert a[0] in b && b[0] in a;
      forall k ensures k in a[1..] <==> k in b[1..] {
        assert k in a <==> k == a[0] || k in a[1..];
        assert k in b <==> k == b[0] || k in b[1..];
        assert k in a[1..] ==> k.openTime > a[0].openTime;
        assert k in b[1..] ==> k.openTime > b[0].openTime;
      }
      RisingIsUnique(a[1..], b[1..]);
    }
  }

  /** A range is a prefix of itself followed by the range that starts after that prefix. */
  lemma SplitRange(all: seq<Kline>, start: int, end: int, n: nat)
    requires Rising(all) && 0 < n <= |Between(all, start, end)|
    ensures var range := Between(all, start, end);
            && range[n - 1].openTime >= start
            && range[n..] == Between(all, range[n - 1].openTime + 1, end)
  {
    var range := Between(all, start, end);
    var next := range[n - 1].openTime + 1;
    BetweenRises(all, start, end);
    BetweenRises(all, next, end);
    assert range[n - 1] in range;
    BetweenMembers(all, start, end, range[n - 1]);
    forall k ensures k in range[n..] <==> k in Between(all, next, end) {
      BetweenMembers(all, start, end, k);
      BetweenMembers(all, next, end, k);
      assert k in range ==> exists i :: 0 <= i < |range| && range[i] == k;
      assert k in range && k.openTime >= next ==> k in range[n..] by {
        if k in range && k.openTime >= next {
          var i :| 0 <= i < |range| && range[i] == k;
          assert i >= n;
          assert range[n..][i - n] == k;
        }
      }
    }
    RisingIsUnique(range[n..], Between(all, next, end));
  }

  lemma {:induction false} NothingBetween(all: seq<Kline>, from: int, end: int)
    requires forall i :: 0 <= i < |all| ==> !(from <= all[i].openTime <= end)
    ensures Between(all, from, end) == []
  {
    if all != [] {
      NothingBetween(all[1..], from, end);
    }
  }

  lemma {:induction false} AtMostOneAt(all: seq<Kline>, time: int)
    requires Rising(all)
    ensures |Between(all, time, time)| <= 1
  {
    if all != [] {
      AtMostOneAt(all[1..], time);
      if all[0].openTime == time {
        NothingBetween(all[1..], time, time);
      }
    }
  }

  /** A range is the same range ending one millisecond earlier, and at most one kline that opens at its end. */
  lemma SplitEnd(all: seq<Kline>, start: int, end: int)
    requires Rising(all) && start <= end
    ensures Between(all, start, end) == Between(all, start, end - 1) + Between(all, end, end)
    ensures |Between(all, end, end)| <= 1
    ensures var range := Between(all, start, end);
            forall i :: 0 <= i < |range| ==> start <= range[i].openTime <= end
    ensures var early := Between(all, start, end - 1);
            forall i :: 0 <= i < |early| ==> early[i].openTime < end
  {
    var early, last := Between(all, start, end - 1), Between(all, end, end);
    BetweenRises(all, start, end);
    BetweenRises(all, start, end - 1);
    BetweenRises(all, end, end);
    forall k
      ensures k in Between(all, start, end) <==> k in early + last
      ensures k in early ==> k.openTime < end
      ensures k in last ==> k.openTime == end
      ensures k in Between(all, start, end) ==> start <= k.openTime <= end
    {
      BetweenMembers(all, start, end, k);
      BetweenMembers(all, start, end - 1, k);
      BetweenMembers(all, end, end, k);
    }
    assert forall i :: 0 <= i < |early| ==> early[i] in early;
    assert forall i :: 0 <= i < |last| ==> last[i] in last;
    AtMostOneAt(all, end);
    RisingIsUnique(Between(all, start, end), early + last);
    assert forall i :: 0 <= i < |Between(all, start, end)| ==> Between(all, start, end)[i] in Between(all, start, end);
  }

  /** The one thing the loop can miss: a kline opening at the end of the range, when the kline one millisecond before it
      closes a full page. */
  ghost predicate MissesLast(all: seq<Kline>, start: int, end: int) {
    var rest := Between(all, start, end - 1);
    && rest != [] && |rest| % PAGE_LIMIT == 0 && rest[|rest| - 1].openTime == end - 1
    && Between(all, end, end) != []
  }

  /** Full pages so far, and the next one starts after the last kline. */
  ghost predicate Paged(all: seq<Kline>, start: int, end: int, bars: seq<Kline>, from: int) {
    && bars + Between(all, from, end) == Between(all, start, end)
    && |bars| % PAGE_LIMIT == 0
    && from == if bars == [] then start else bars[|bars| - 1].openTime + 1
  }

  /** The loop stopped because the range was used up. */
  lemma StoppedAtEnd(all: seq<Kline>, start: int, end: int, bars: seq<Kline>, from: int)
    requires Rising(all) && start < end <= from && Paged(all, start, end, bars, from)
    ensures bars == Between(all, start, if MissesLast(all, start, end) then end - 1 else end)
  {
    SplitEnd(all, start, end);
    var early, last := Between(all, start, end - 1), Between(all, end, end);
    assert bars[|bars| - 1] == Between(all, start, end)[|bars| - 1];
    if from == end {
      SamePrefix(bars, early, last);
    } else {
      NothingBetween(all, from, end);
      assert bars == early + last && bars[|bars| - 1].openTime == end;
      assert last == [] ==> bars == early;
      assert |bars| == |early| + 1;
    }
  }

  lemma SamePrefix<T>(a: seq<T>, b: seq<T>, tail: seq<T>)
    requires a + tail == b + tail
    ensures a == b
  {
    assert |a| == |b| && a == (a + tail)[..|a|] && b == (b + tail)[..|b|];
  }

  /** The loop stopped because the server had less than a page left. */
  lemma StoppedShort(all: seq<Kline>, start: int, end: int, bars: seq<Kline>, from: int)
    requires Rising(all) && from < end && start < end && Paged(all, start, end, bars, from)
    requires |Between(all, from, end)| < PAGE_LIMIT
    ensures !MissesLast(all, start, end) && bars + Between(all, from, end) == Between(all, start, end)
  {
    SplitEnd(all, start, end);
    SplitEnd(all, from, end);
    var early, last := Between(all, start, end - 1), Between(all, end, end);
    if |last| == 1 && |early| % PAGE_LIMIT == 0 {
      assert |early| == |bars| + |Between(all, from, end - 1)| && |Between(all, from, end - 1)| < PAGE_LIMIT - 1;
      assert Between(all, from, end) == last;
      SamePrefix(bars, early, last);
    }
  }

  lemma WholePages(n: nat)
    requires n % PAGE_LIMIT == 0
    ensures (n + PAGE_LIMIT) % PAGE_LIMIT == 0
  {
  }

  lemma AppendSplits<T>(a: seq<T>, whole: seq<T>, n: nat)
    requires 0 < n <= |whole|
    ensures (a + whole[..n]) + whole[n..] == a + whole && (a + whole[..n])[|a| + n - 1] == whole[n - 1]
  {
    assert whole == whole[..n] + whole[n..];
  }

  /** A full page keeps the loop's state in step. */
  lemma FullPageAdvances(all: seq<Kline>, start: int, end: int, bars: seq<Kline>, from: int, page: seq<Kline>)
    requires Rising(all) && Paged(all, start, end, bars, from)
    requires page == Page(all, from, end) && |page| == PAGE_LIMIT
    ensures from <= page[PAGE_LIMIT - 1].openTime
    ensures Paged(all, start, end, bars + page, page[PAGE_LIMIT - 1].openTime + 1)
  {
    hide Between, Rising;
    SplitRange(all, from, end, PAGE_LIMIT);
    AppendSplits(bars, Between(all, from, end), PAGE_LIMIT);
    WholePages(|bars|);
  }

  /** `request_bars`: what the pages add up to, for any klines and any range. */
  method RequestBars(all: seq<Kline>, start: int, end: int) returns (bars: seq<Kline>)
    requires Rising(all)
    ensures start >= end ==> bars == []
    ensures start < end ==> bars == Between(all, start, if MissesLast(all, start, end) then end - 1 else end)
  {
    hide Between, MissesLast, Paged, Rising;
    bars := [];
    var from := start;
    StartsPaged(all, start, end);
    while from < end
      invariant Paged(all, start, end, bars, from)
      invariant start >= end ==> bars == [] && from == start
      decreases end - from
    {
      var page := Page(all, from, end);
      if |page| < PAGE_LIMIT {
        StoppedShort(all, start, end, bars, from);
      } else {
        FullPageAdvances(all, start, end, bars, from, page);
      }
      if page == [] {
        return;
      }
      bars, from := AppendPage(bars, page);
      if |page| < PAGE_LIMIT {
        return;
      }
    }
    if start < end {
      StoppedAtEnd(all, start, end, bars, from);
    }
  }

  /** Every kline of a page is kept, and the next page starts after its last one. */
  method AppendPage(fetched: seq<Kline>, page: seq<Kline>) returns (bars: seq<Kline>, from: int)
    requires page != []
    ensures bars == fetched + page && from == page[|page| - 1].openTime + 1
  {
    bars, from := fetched, 0;
    for i := 0 to |page|
      invariant bars == fetched + page[..i]
      invariant i > 0 ==> from == page[i - 1].openTime + 1
    {
      bars := bars + [page[i]];
      from := page[i].openTime + 1;
    }
    assert page[..|page|] == page;
  }

  lemma StartsPaged(all: seq<Kline>, start: int, end: int)
    ensures Paged(all, start, end, [], start)
  {
  }

  /** Klines at least two milliseconds apart are all returned. */
  lemma SpacedKlinesAreComplete(all: seq<Kline>, start: int, end: int)
    requires forall i, j :: 0 <= i < j < |all| ==> all[i].openTime + 2 <= all[j].openTime
    requires start < end
    ensures Rising(all) && !MissesLast(all, start, end)
  {
    var rest, last := Between(all, start, end - 1), Between(all, end, end);
    if rest != [] && last != [] {
      BetweenMembers(all, start, end - 1, rest[|rest| - 1]);
      BetweenMembers(all, end, end, last[0]);
      assert rest[|rest| - 1] in rest && last[0] in last;
      var i :| 0 <= i < |all| && all[i] == rest[|rest| - 1];
      var j :| 0 <= j < |all| && all[j] == last[0];
      assert i < j;
    }
  }

  /** It does happen: 1001 klines one millisecond apart, asked for exactly. */
  lemma LastCanBeMissed() returns (all: seq<Kline>, start: int, end: int)
    ensures Rising(all) && start < end && |Between(all, start, end)| == PAGE_LIMIT + 1 && MissesLast(all, start, end)
  {
    all := seq(PAGE_LIMIT + 1, i => Kline(i, i, ""));
    start, end := 0, PAGE_LIMIT;
    var early := all[..PAGE_LIMIT];
    BetweenRises(all, start, end - 1);
    forall k ensures k in Between(all, start, end - 1) <==> k in early {
      BetweenMembers(all, start, end - 1, k);
      assert k in all && k.openTime < end ==> k in early by {
        if k in all && k.openTime < end {
          var i :| 0 <= i < |all| && all[i] == k;
          assert early[i] == k;
        }
      }
    }
    RisingIsUnique(Between(all, start, end - 1), early);
    BetweenMembers(all, end, end, all[PAGE_LIMIT]);
    assert all[PAGE_LIMIT] in all;
    SplitEnd(all, start, end);
  }
}
