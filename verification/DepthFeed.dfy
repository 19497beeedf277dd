/** The Binance client's map-based book: price -> quantity per side, filled by a snapshot and moved forward by numbered
    depth updates carrying final quantities. */
module DepthFeed {
  import opened Levels

  type Quotes = map<real, real>
  type Change = (real, real)

  datatype Event = Event(first: int, final: int, bids: seq<Change>, asks: seq<Change>)

  datatype BookSnapshot = BookSnapshot(lastUpdateId: int, bids: seq<Change>, asks: seq<Change>)

  datatype LocalBook = LocalBook(lastUpdateId: int, bids: Quotes, asks: Quotes, subscribedDepth: int, initialized: bool)

  datatype Feed = Depth(event: Event) | Full(snapshot: BookSnapshot)

  // What the handlers do to the book.

  function SetLevel(m: Quotes, c: Change): Quotes {
    if c.1 == 0.0 then m - {c.0} else m[c.0 := c.1]
  }

  function SetAll(m: Quotes, changes: seq<Change>): Quotes {
    if changes == [] then m else SetLevel(SetAll(m, changes[..|changes| - 1]), changes[|changes| - 1])
  }

  function Load(entries: seq<Change>): Quotes {
    if entries == [] then map[]
      else Load(entries[..|entries| - 1])[entries[|entries| - 1].0 := entries[|entries| - 1].1]
  }

  function ApplyEvent(b: LocalBook, e: Event): LocalBook {
    if !b.initialized || e.final <= b.lastUpdateId then b
    else b.(bids := SetAll(b.bids, e.bids), asks := SetAll(b.asks, e.asks), lastUpdateId := e.final)
  }

  function ApplySnapshot(b: LocalBook, s: BookSnapshot): LocalBook {
    b.(bids := Load(s.bids), asks := Load(s.asks), lastUpdateId := s.lastUpdateId, initialized := true)
  }

  function Receive(b: LocalBook, f: Feed): LocalBook {
    match f
    case Depth(e) => ApplyEvent(b, e)
    case Full(s) => ApplySnapshot(b, s)
  }

  function ReceiveAll(b: LocalBook, fs: seq<Feed>): LocalBook {
    if fs == [] then b else Receive(ReceiveAll(b, fs[..|fs| - 1]), fs[|fs| - 1])
  }

  // The exchange: its book at every update id, and what it sends about it.

  function Qty(m: Quotes, p: real): real {
    if p in m then m[p] else 0.0
  }

  /** Quantities that are listed are not zero. */
  ghost predicate Clean(m: Quotes) {
    forall p :: p in m ==> m[p] != 0.0
  }

  datatype Exchange = Exchange(bids: seq<Quotes>, asks: seq<Quotes>)

  ghost predicate ValidExchange(x: Exchange) {
    && |x.bids| == |x.asks| > 0
    && (forall k :: 0 <= k < |x.bids| ==> Clean(x.bids[k]) && Clean(x.asks[k]))
  }

  predicate Lists(changes: seq<Change>, p: real) {
    exists i :: 0 <= i < |changes| && changes[i].0 == p
  }

  /** An update for ids first..final gives the final quantity of every price it lists, and the prices it does not list
      did not change at any of these ids. */
  ghost predicate SideFaithful(h: seq<Quotes>, first: int, final: int, changes: seq<Change>)
    requires 0 < first <= final < |h|
  {
    && (forall i :: 0 <= i < |changes| ==> changes[i].1 == Qty(h[final], changes[i].0))
    && (forall p, k :: first - 1 <= k <= final && !Lists(changes, p) ==> Qty(h[k], p) == Qty(h[final], p))
  }

  ghost predicate Faithful(x: Exchange, e: Event)
    requires ValidExchange(x)
  {
    && 0 < e.first <= e.final < |x.bids|
    && SideFaithful(x.bids, e.first, e.final, e.bids) && SideFaithful(x.asks, e.first, e.final, e.asks)
  }

  /** The snapshot tells the truth on the given prices (a request for few levels covers only the best ones). */
  ghost predicate FaithfulSnapshot(x: Exchange, s: BookSnapshot, bidPrices: iset<real>, askPrices: iset<real>)
    requires ValidExchange(x)
  {
    && 0 <= s.lastUpdateId < |x.bids|
    && SideTold(x.bids[s.lastUpdateId], s.bids, bidPrices) && SideTold(x.asks[s.lastUpdateId], s.asks, askPrices)
  }

  /** Of the given prices the entries list exactly the quoted ones, each with its quantity, whatever they say of
      others. */
  ghost predicate SideTold(h: Quotes, entries: seq<Change>, prices: iset<real>) {
    && (forall i :: 0 <= i < |entries| ==> entries[i].1 != 0.0)
    && (forall i :: 0 <= i < |entries| && entries[i].0 in prices ==> entries[i].1 == Qty(h, entries[i].0))
    && (forall p :: p in prices && !Lists(entries, p) ==> Qty(h, p) == 0.0)
  }

  /** No later entry names the price again. */
  ghost predicate LastEntry(entries: seq<Change>, i: int) {
    0 <= i < |entries| && forall j :: i < j < |entries| ==> entries[j].0 != entries[i].0
  }

  lemma {:induction false} LoadLists(entries: seq<Change>, p: real)
    ensures p in Load(entries) <==> Lists(entries, p)
  {
    if entries != [] {
      var n := |entries| - 1;
      LoadLists(entries[..n], p);
      assert forall i :: 0 <= i < n ==> entries[..n][i] == entries[i];
    }
  }

  lemma {:induction false} LoadKeepsLast(entries: seq<Change>, i: int)
    requires LastEntry(entries, i)
    ensures entries[i].0 in Load(entries) && Load(entries)[entries[i].0] == entries[i].1
  {
    var n := |entries| - 1;
    if i < n {
      assert forall j :: 0 <= j < n ==> entries[..n][j] == entries[j];
      LoadKeepsLast(entries[..n], i);
    }
  }

  lemma {:induction false} LastEntryOf(entries: seq<Change>, p: real) returns (i: int)
    requires Lists(entries, p)
    ensures LastEntry(entries, i) && entries[i].0 == p
  {
    var n := |entries| - 1;
    if entries[n].0 == p {
      i := n;
    } else {
      assert forall j :: 0 <= j < n ==> entries[..n][j] == entries[j];
      i := LastEntryOf(entries[..n], p);
    }
  }

  /** A loaded snapshot holds exactly the listed prices, each with the quantity of its last entry. */
  lemma LoadHolds(entries: seq<Change>)
    ensures forall p :: p in Load(entries) <==> Lists(entries, p)
    ensures forall i :: LastEntry(entries, i) ==>
      entries[i].0 in Load(entries) && Load(entries)[entries[i].0] == entries[i].1
  {
    hide Load;
    forall p ensures p in Load(entries) <==> Lists(entries, p) {
      LoadLists(entries, p);
    }
    forall i | LastEntry(entries, i)
      ensures entries[i].0 in Load(entries) && Load(entries)[entries[i].0] == entries[i].1
    {
      LoadKeepsLast(entries, i);
    }
  }

  lemma ToldIsLoaded(h: Quotes, entries: seq<Change>, prices: iset<real>)
    requires SideTold(h, entries, prices)
    ensures Clean(Load(entries)) && forall p :: p in prices ==> Qty(Load(entries), p) == Qty(h, p)
  {
    hide Load;
    LoadHolds(entries);
    forall p | p in Load(entries) ensures Load(entries)[p] != 0.0 && (p in prices ==> Load(entries)[p] == Qty(h, p)) {
      var i := LastEntryOf(entries, p);
    }
  }

  ghost function AllPrices(): (all: iset<real>)
    ensures forall p: real :: p in all
  {
    iset p: real | Near(p, p)
  }

  /** An update is ignored as old, or starts no later than one past the book. */
  predicate NoGap(b: LocalBook, e: Event) {
    b.initialized && e.final > b.lastUpdateId ==> e.first <= b.lastUpdateId + 1
  }

  ghost predicate Arrives(x: Exchange, b: LocalBook, f: Feed, bidPrices: iset<real>, askPrices: iset<real>)
    requires ValidExchange(x)
  {
    match f
    case Depth(e) => Faithful(x, e) && NoGap(b, e)
    case Full(s) => FaithfulSnapshot(x, s, bidPrices, askPrices)
  }

  ghost predicate FeedFrom(x: Exchange, b: LocalBook, fs: seq<Feed>, bidPrices: iset<real>, askPrices: iset<real>)
    requires ValidExchange(x)
  {
    forall i :: 0 <= i < |fs| ==> Arrives(x, ReceiveAll(b, fs[..i]), fs[i], bidPrices, askPrices)
  }

  /** Once initialised, the book agrees with the exchange at the book's own update id. */
  ghost predicate Tracks(x: Exchange, b: LocalBook, bidPrices: iset<real>, askPrices: iset<real>)
    requires ValidExchange(x)
  {
    b.initialized ==>
      && 0 <= b.lastUpdateId < |x.bids| && Clean(b.bids) && Clean(b.asks)
      && (forall p :: p in bidPrices ==> Qty(b.bids, p) == Qty(x.bids[b.lastUpdateId], p))
      && (forall p :: p in askPrices ==> Qty(b.asks, p) == Qty(x.asks[b.lastUpdateId], p))
  }

  /** Setting a list of levels to their quantities in `t` gives `t` on those prices and changes no other. */
  lemma {:induction false} SetAllQty(m: Quotes, changes: seq<Change>, t: Quotes, p: real)
    requires Clean(m)
    requires forall i :: 0 <= i < |changes| ==> changes[i].1 == Qty(t, changes[i].0)
    ensures Clean(SetAll(m, changes))
    ensures Qty(SetAll(m, changes), p) == if Lists(changes, p) then Qty(t, p) else Qty(m, p)
  {
    if changes != [] {
      var n := |changes| - 1;
      SetAllQty(m, changes[..n], t, p);
      assert changes == changes[..n] + [changes[n]];
      assert Lists(changes, p) <==> Lists(changes[..n], p) || changes[n].0 == p;
    }
  }

  lemma UpdateTracks(x: Exchange, b: LocalBook, e: Event, bidPrices: iset<real>, askPrices: iset<real>)
    requires ValidExchange(x) && Tracks(x, b, bidPrices, askPrices) && Faithful(x, e) && NoGap(b, e)
    ensures Tracks(x, ApplyEvent(b, e), bidPrices, askPrices)
  {
    if b.initialized && e.final > b.lastUpdateId {
      SetAllQty(b.bids, e.bids, x.bids[e.final], 0.0);
      SetAllQty(b.asks, e.asks, x.asks[e.final], 0.0);
      forall p | p in bidPrices ensures Qty(SetAll(b.bids, e.bids), p) == Qty(x.bids[e.final], p) {
        SetAllQty(b.bids, e.bids, x.bids[e.final], p);
      }
      forall p | p in askPrices ensures Qty(SetAll(b.asks, e.asks), p) == Qty(x.asks[e.final], p) {
        SetAllQty(b.asks, e.asks, x.asks[e.final], p);
      }
    }
  }

  lemma SnapshotTracks(x: Exchange, b: LocalBook, s: BookSnapshot, bidPrices: iset<real>, askPrices: iset<real>)
    requires ValidExchange(x) && FaithfulSnapshot(x, s, bidPrices, askPrices)
    ensures Tracks(x, ApplySnapshot(b, s), bidPrices, askPrices) && ApplySnapshot(b, s).initialized
  {
    ToldIsLoaded(x.bids[s.lastUpdateId], s.bids, bidPrices);
    ToldIsLoaded(x.asks[s.lastUpdateId], s.asks, askPrices);
  }

  /** On every feed without gaps, whatever mix of updates and snapshots, the book follows the exchange on every price
      the snapshots covered. */
  lemma {:induction false} FeedTracks(x: Exchange, b: LocalBook, fs: seq<Feed>, bidPrices: iset<real>,
      askPrices: iset<real>)
    requires ValidExchange(x) && Tracks(x, b, bidPrices, askPrices) && FeedFrom(x, b, fs, bidPrices, askPrices)
    ensures Tracks(x, ReceiveAll(b, fs), bidPrices, askPrices)
  {
    if fs != [] {
      var n := |fs| - 1;
      var before := fs[..n];
      assert forall i :: 0 <= i < n ==> before[..i] == fs[..i];
      FeedTracks(x, b, before, bidPrices, askPrices);
      var mid := ReceiveAll(b, before);
      assert Arrives(x, mid, fs[n], bidPrices, askPrices);
      if fs[n].Depth? {
        UpdateTracks(x, mid, fs[n].event, bidPrices, askPrices);
      } else {
        SnapshotTracks(x, mid, fs[n].snapshot, bidPrices, askPrices);
      }
    }
  }

  /** With exact snapshots the two books are equal, level for level. */
  lemma ExactFeedEquals(x: Exchange, b: LocalBook, fs: seq<Feed>)
    requires ValidExchange(x) && !b.initialized
    requires FeedFrom(x, b, fs, AllPrices(), AllPrices())
    ensures var r := ReceiveAll(b, fs);
            r.initialized ==>
              0 <= r.lastUpdateId < |x.bids| && r.bids == x.bids[r.lastUpdateId] && r.asks == x.asks[r.lastUpdateId]
  {
    var r := ReceiveAll(b, fs);
    FeedTracks(x, b, fs, AllPrices(), AllPrices());
    if r.initialized {
      TrackedEquals(x, r);
    }
  }

  // Starting up: updates arrive in a row, and the snapshot somewhere among them.

  function Updates(es: seq<Event>): seq<Feed> {
    seq(|es|, i requires 0 <= i < |es| => Depth(es[i]))
  }

  lemma UpdatesLast(es: seq<Event>)
    requires es != []
    ensures var n := |es| - 1;
            && |Updates(es)| == |es| && Updates(es)[..n] == Updates(es[..n])
            && Updates(es)[n] == Depth(es[n])
  {
  }

  /** Each update starts where the one before it ended. */
  ghost predicate Contiguous(es: seq<Event>) {
    && (forall i :: 0 <= i < |es| ==> es[i].first <= es[i].final)
    && (forall i, j :: 0 <= i && j == i + 1 && j < |es| ==> es[j].first == es[i].final + 1)
  }

  ghost predicate GapFree(b: LocalBook, es: seq<Event>) {
    forall i :: 0 <= i < |es| ==> NoGap(ReceiveAll(b, Updates(es[..i])), es[i])
  }

  /** Before its snapshot a book drops every update, whatever the comment above the handler says of buffering. */
  lemma {:induction false} DroppedBeforeSnapshot(b: LocalBook, es: seq<Event>)
    requires !b.initialized
    ensures ReceiveAll(b, Updates(es)) == b
  {
    if es != [] {
      UpdatesLast(es);
      DroppedBeforeSnapshot(b, es[..|es| - 1]);
    }
  }

  lemma ContiguousPart(es: seq<Event>, i: int, j: int)
    requires Contiguous(es) && 0 <= i <= j <= |es|
    ensures Contiguous(es[i..j]) && (i == 0 ==> es[i..j] == es[..j]) && (j == |es| ==> es[i..j] == es[i..])
    ensures i < j < |es| ==> es[j].first == es[j - 1].final + 1
  {
  }

  lemma EventReaches(b: LocalBook, e: Event)
    requires b.initialized
    ensures var r := ApplyEvent(b, e);
            r.initialized && r.lastUpdateId == if e.final <= b.lastUpdateId then b.lastUpdateId else e.final
  {
  }

  /** Where updates in a row leave an initialised book that misses none. */
  lemma {:induction false} RowReaches(b: LocalBook, es: seq<Event>)
    requires b.initialized && Contiguous(es) && es != [] && es[0].first <= b.lastUpdateId + 1
    ensures GapFree(b, es)
    ensures var r, end := ReceiveAll(b, Updates(es)), es[|es| - 1].final;
            r.initialized && r.lastUpdateId == if end <= b.lastUpdateId then b.lastUpdateId else end
  {
    hide ApplyEvent, Updates;
    var n := |es| - 1;
    var before := es[..n];
    UpdatesLast(es);
    ContiguousPart(es, 0, n);
    assert es[n].first <= es[n].final;
    if n > 0 {
      assert es[n - 1].first <= es[n - 1].final;
      RowReaches(b, before);
      forall i | 0 <= i < n ensures NoGap(ReceiveAll(b, Updates(es[..i])), es[i]) {
        assert before[..i] == es[..i] && before[i] == es[i];
      }
    } else {
      UpdatesNone();
      assert es[..0] == [];
    }
    EventReaches(ReceiveAll(b, Updates(before)), es[n]);
  }

  lemma UpdatesNone()
    ensures Updates([]) == []
  {
  }

  /** Of the updates around the first snapshot the dropped ones are not missed exactly when the first one after it
      starts no later than one past it. */
  lemma StartUpIsGapFreeIff(b: LocalBook, es: seq<Event>, j: int, s: BookSnapshot)
    requires !b.initialized && Contiguous(es) && 0 <= j < |es|
    ensures var loaded := Receive(ReceiveAll(b, Updates(es[..j])), Full(s));
            && loaded == ApplySnapshot(b, s)
            && (GapFree(loaded, es[j..]) <==> es[j].first <= s.lastUpdateId + 1)
  {
    hide ApplyEvent, Updates;
    var loaded, later := ApplySnapshot(b, s), es[j..];
    DroppedBeforeSnapshot(b, es[..j]);
    ContiguousPart(es, j, |es|);
    UpdatesNone();
    assert later[..0] == [] && later[0] == es[j] && es[j].first <= es[j].final;
    if es[j].first <= s.lastUpdateId + 1 {
      RowReaches(loaded, later);
    } else {
      assert !NoGap(ReceiveAll(loaded, Updates(later[..0])), later[0]);
    }
  }

  /** A start-up without a gap equals the exchange at the last update or at the snapshot, whichever is later. */
  lemma StartUpEquals(x: Exchange, b: LocalBook, es: seq<Event>, j: int, s: BookSnapshot)
    requires ValidExchange(x) && FaithfulSnapshot(x, s, AllPrices(), AllPrices())
    requires !b.initialized && Contiguous(es) && 0 <= j < |es| && es[j].first <= s.lastUpdateId + 1
    requires forall i :: j <= i < |es| ==> Faithful(x, es[i])
    ensures var loaded := Receive(ReceiveAll(b, Updates(es[..j])), Full(s));
            var r, end := ReceiveAll(loaded, Updates(es[j..])), es[|es| - 1].final;
            && r.lastUpdateId == (if end <= s.lastUpdateId then s.lastUpdateId else end)
            && 0 <= r.lastUpdateId < |x.bids| && r.bids == x.bids[r.lastUpdateId] && r.asks == x.asks[r.lastUpdateId]
  {
    hide ApplyEvent, Contiguous, Faithful, FaithfulSnapshot;
    var loaded, later := ApplySnapshot(b, s), es[j..];
    StartUpIsGapFreeIff(b, es, j, s);
    ContiguousPart(es, j, |es|);
    assert later[0] == es[j];
    RowReaches(loaded, later);
    SnapshotTracks(x, b, s, AllPrices(), AllPrices());
    RowArrives(x, loaded, later);
    FeedTracks(x, loaded, Updates(later), AllPrices(), AllPrices());
    TrackedEquals(x, ReceiveAll(loaded, Updates(later)));
  }

  lemma RowArrives(x: Exchange, b: LocalBook, es: seq<Event>)
    requires ValidExchange(x) && GapFree(b, es) && forall i :: 0 <= i < |es| ==> Faithful(x, es[i])
    ensures FeedFrom(x, b, Updates(es), AllPrices(), AllPrices())
  {
    forall i | 0 <= i < |es|
      ensures Arrives(x, ReceiveAll(b, Updates(es)[..i]), Updates(es)[i], AllPrices(), AllPrices())
    {
      assert Updates(es)[..i] == Updates(es[..i]);
    }
  }

  lemma TrackedEquals(x: Exchange, r: LocalBook)
    requires ValidExchange(x) && r.initialized && Tracks(x, r, AllPrices(), AllPrices())
    ensures 0 <= r.lastUpdateId < |x.bids| && r.bids == x.bids[r.lastUpdateId] && r.asks == x.asks[r.lastUpdateId]
  {
    SameQuotes(r.bids, x.bids[r.lastUpdateId]);
    SameQuotes(r.asks, x.asks[r.lastUpdateId]);
  }

  lemma SameQuotes(m: Quotes, t: Quotes)
    requires Clean(m) && Clean(t) && forall p :: Qty(m, p) == Qty(t, p)
    ensures m == t
  {
    forall p ensures p in m <==> p in t {
      assert Qty(m, p) == Qty(t, p);
    }
    forall p | p in m ensures m[p] == t[p] {
      assert Qty(m, p) == Qty(t, p);
    }
  }

  function Fresh(changes: seq<Change>): (p: real)
    ensures !Lists(changes, p)
    ensures forall i :: 0 <= i < |changes| ==> changes[i].0 < p
  {
    if changes == [] then 0.0
    else
      var r := Fresh(changes[..|changes| - 1]);
      assert forall i :: 0 <= i < |changes| - 1 ==> changes[i] == changes[..|changes| - 1][i];
      if changes[|changes| - 1].0 < r then r else changes[|changes| - 1].0 + 1.0
  }

  /** The handler never compares first ids, and it must: whatever update skips an id, some exchange that this book
      tracked until now, and that sends this update truthfully, is left wrong. */
  lemma GapLosesLevels(b: LocalBook, e: Event) returns (x: Exchange)
    requires b.initialized && 0 <= b.lastUpdateId && b.lastUpdateId + 1 < e.first <= e.final
    requires Clean(b.bids) && Clean(b.asks)
    requires forall i, j :: 0 <= i < |e.bids| && 0 <= j < |e.bids| && e.bids[i].0 == e.bids[j].0 ==>
      e.bids[i] == e.bids[j]
    requires forall i, j :: 0 <= i < |e.asks| && 0 <= j < |e.asks| && e.asks[i].0 == e.asks[j].0 ==>
      e.asks[i] == e.asks[j]
    ensures ValidExchange(x) && Faithful(x, e)
    ensures Tracks(x, b, AllPrices(), AllPrices())
    ensures !Tracks(x, ApplyEvent(b, e), AllPrices(), AllPrices())
  {
    // a bid the update does not mention appears at the id that was skipped
    var p := Fresh(e.bids);
    var lost := if Qty(b.bids, p) == 1.0 then 2.0 else 1.0;
    var skipped := b.bids[p := lost];
    var bidsAfter, asksAfter := SetAll(skipped, e.bids), SetAll(b.asks, e.asks);
    var n := e.final + 1;
    x := Exchange(
      seq(n, k => if k <= b.lastUpdateId then b.bids else if k < e.final then skipped else bidsAfter),
      seq(n, k => if k <= b.lastUpdateId then b.asks else if k < e.final then b.asks else asksAfter));
    LastWins(skipped, e.bids);
    LastWins(b.asks, e.asks);
    LastWins(b.bids, e.bids);
    assert Qty(bidsAfter, p) == lost && Qty(SetAll(b.bids, e.bids), p) == Qty(b.bids, p);
    assert ApplyEvent(b, e).lastUpdateId == e.final && x.bids[e.final] == bidsAfter;
    assert p in AllPrices();
  }

  /** A list that names each price consistently leaves exactly its own quantities. */
  lemma {:induction false} LastWins(m: Quotes, changes: seq<Change>)
    requires Clean(m)
    requires forall i, j :: 0 <= i < |changes| && 0 <= j < |changes| && changes[i].0 == changes[j].0 ==>
      changes[i] == changes[j]
    ensures Clean(SetAll(m, changes))
    ensures forall i :: 0 <= i < |changes| ==> changes[i].1 == Qty(SetAll(m, changes), changes[i].0)
    ensures forall p :: !Lists(changes, p) ==> Qty(SetAll(m, changes), p) == Qty(m, p)
  {
    if changes != [] {
      var n := |changes| - 1;
      LastWins(m, changes[..n]);
      assert changes == changes[..n] + [changes[n]];
      forall p | !Lists(changes, p) ensures Qty(SetAll(m, changes), p) == Qty(m, p) {
        assert changes[n].0 != p;
        assert !Lists(changes[..n], p);
      }
    }
  }
}
