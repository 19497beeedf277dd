/** The book-keeping part of the Binance data client: book subscriptions, the local books behind them, and the order
    book messages it emits. */
module BinanceClients {
  import opened Basics
  import opened Levels
  import opened DepthFeed
  import opened Ladders
  import opened Channels
  import opened DataEngines

  /** An order book message: both sides to the subscribed depth. */
  datatype BookMessage = BookMessage(instrument: string, bids: seq<Level>, asks: seq<Level>, timestamp: int)

  datatype Emission = Nothing | Emitted(message: BookMessage)

  function NewBook(depth: int): LocalBook {
    LocalBook(0, map[], map[], depth, false)
  }

  /** `to_order_book` */
  ghost function MessageOf(instrument: string, b: LocalBook, timestamp: int): BookMessage {
    BookMessage(instrument, Published(b.bids, Buy, b.subscribedDepth), Published(b.asks, Sell, b.subscribedDepth),
      timestamp)
  }

  /** A level of the exchange's own book, among its first `depth` prices. */
  predicate IsTopLevel(quotes: Quotes, side: Side, depth: int, x: Level) {
    && x.price in quotes && x == Level(x.price, quotes[x.price], 0) && x.size > 0.0
    && |Better(quotes.Keys, side, x.price)| < depth
  }

  /** What is emitted over a gap-free feed whose snapshots cover the best prices: exactly the exchange's own levels
      within the subscribed depth, as far as the covered prices fill it, each side in priority order. */
  lemma EmissionShowsExchange(x: Exchange, b: LocalBook, fs: seq<Feed>, worstBid: real, worstAsk: real, id: string,
      timestamp: int, l: Level)
    requires ValidExchange(x) && !b.initialized
    requires FeedFrom(x, b, fs, KnownPrices(Buy, worstBid), KnownPrices(Sell, worstAsk))
    ensures var r, depth := ReceiveAll(b, fs), b.subscribedDepth;
            var m := MessageOf(id, r, timestamp);
            r.initialized ==>
              && 0 <= r.lastUpdateId < |x.bids| && m.instrument == id && m.timestamp == timestamp
              && (depth <= |Known(x.bids[r.lastUpdateId].Keys, Buy, worstBid)| ==>
                   (l in m.bids <==> IsTopLevel(x.bids[r.lastUpdateId], Buy, depth, l)))
              && (depth <= |Known(x.asks[r.lastUpdateId].Keys, Sell, worstAsk)| ==>
                   (l in m.asks <==> IsTopLevel(x.asks[r.lastUpdateId], Sell, depth, l)))
              && (forall i, j :: 0 <= i < j < |m.bids| ==> m.bids[i].price > m.bids[j].price)
              && (forall i, j :: 0 <= i < j < |m.asks| ==> m.asks[i].price < m.asks[j].price)
  {
    hide Published, Better, Known;
    var r, depth := ReceiveAll(b, fs), b.subscribedDepth;
    FeedPublishesTop(x, b, fs, worstBid, worstAsk, depth);
    FeedKeepsDepth(b, fs);
    PublishedAscends(r.bids, Buy, depth);
    PublishedAscends(r.asks, Sell, depth);
    if r.initialized {
      PublishedIsTop(x.bids[r.lastUpdateId], Buy, depth, l);
      PublishedIsTop(x.asks[r.lastUpdateId], Sell, depth, l);
    }
  }

  lemma {:induction false} FeedKeepsDepth(b: LocalBook, fs: seq<Feed>)
    ensures ReceiveAll(b, fs).subscribedDepth == b.subscribedDepth
  {
    if fs != [] {
      FeedKeepsDepth(b, fs[..|fs| - 1]);
    }
  }

  class BinanceDataClient {
    var bookSubs: map<string, int>
    var orderBooks: map<string, LocalBook>

    ghost predicate Valid()
      reads this
    {
      && bookSubs.Keys == orderBooks.Keys
      && forall id :: id in bookSubs ==> bookSubs[id] == orderBooks[id].subscribedDepth
    }

    constructor ()
      ensures Valid() && bookSubs == map[]
    {
      bookSubs, orderBooks := map[], map[];
    }

    /** A new subscription starts an empty book and asks for a snapshot; a deeper one only deepens it. */
    method SubscribeOrderBook(id: string, depth: int) returns (snapshotWanted: bool)
      requires Valid()
      modifies this
      ensures Valid()
      ensures bookSubs == ClientSubscribed(DataClient({}, old(bookSubs)), BookKey(id), depth).books
      ensures snapshotWanted == (id !in old(bookSubs))
      ensures snapshotWanted ==> !orderBooks[id].initialized && orderBooks[id].bids == map[] == orderBooks[id].asks
      ensures orderBooks.Keys == old(orderBooks).Keys + {id}
      ensures orderBooks[id] == if snapshotWanted then NewBook(depth)
        else old(orderBooks)[id].(subscribedDepth := bookSubs[id])
      ensures forall i :: i in old(orderBooks) && i != id ==> orderBooks[i] == old(orderBooks)[i]
    {
      snapshotWanted := id !in bookSubs;
      if snapshotWanted {
        bookSubs := bookSubs[id := depth];
        orderBooks := orderBooks[id := NewBook(depth)];
      } else if bookSubs[id] < depth {
        bookSubs := bookSubs[id := depth];
        orderBooks := orderBooks[id := orderBooks[id].(subscribedDepth := depth)];
      }
    }

    method UnsubscribeOrderBook(id: string)
      requires Valid()
      modifies this
      ensures Valid()
      ensures bookSubs == ClientUnsubscribed(DataClient({}, old(bookSubs)), BookKey(id)).books
      ensures orderBooks == old(orderBooks) - {id}
    {
      if id in bookSubs {
        bookSubs := bookSubs - {id};
        orderBooks := orderBooks - {id};
      } else {
        assert bookSubs - {id} == bookSubs && orderBooks - {id} == orderBooks;
      }
    }

    static method ApplyLevels(m: Quotes, changes: seq<Change>) returns (result: Quotes)
      ensures result == SetAll(m, changes)
    {
      result := m;
      for i := 0 to |changes|
        invariant result == SetAll(m, changes[..i])
      {
        var price, qty := changes[i].0, changes[i].1;
        assert changes[..i + 1][..i] == changes[..i];
        if qty == 0.0 {
          result := result - {price};
        } else {
          result := result[price := qty];
        }
      }
      assert changes[..|changes|] == changes;
    }

    static method LoadLevels(entries: seq<Change>) returns (result: Quotes)
      ensures result == Load(entries)
    {
      result := map[];
      for i := 0 to |entries|
        invariant result == Load(entries[..i])
      {
        assert entries[..i + 1][..i] == entries[..i];
        result := result[entries[i].0 := entries[i].1];
      }
      assert entries[..|entries|] == entries;
    }

    /** One side of `to_order_book`: walks the ordered map, stops after `depth` entries, keeps positive quantities. */
    static method OneSide(m: Quotes, side: Side, depth: int) returns (levels: seq<Level>)
      ensures levels == Published(m, side, depth)
    {
      levels := [];
      var rest, count := m.Keys, 0;
      ghost var whole := Published(m, side, depth);
      ghost var left := whole;
      while rest != {} && count < depth
        invariant rest <= m.Keys && left == PublishedOf(m, rest, side, depth - count)
        invariant levels + left == whole
        decreases rest
      {
        var best := First(rest, side);
        PublishedSplits(m, rest, side, depth - count);
        left := PublishedOf(m, rest - {best}, side, depth - (count + 1));
        var next := if m[best] > 0.0 then [Level(best, m[best], 0)] else [];
        Reassociate(levels, next, left);
        levels, rest, count := levels + next, rest - {best}, count + 1;
      }
      assert left == [];
    }

    static method First(prices: set<real>, side: Side) returns (best: real)
      requires prices != {}
      ensures best == Best(prices, side)
    {
      ghost var some := Any(prices);
      best :| best in prices;
      var rest := prices - {best};
      while rest != {}
        invariant rest <= prices && best in prices
        invariant forall p :: p in prices - rest ==> Rank(side, best) <= Rank(side, p)
        decreases rest
      {
        some := Any(rest);
        var p :| p in rest;
        if Rank(side, p) < Rank(side, best) {
          best := p;
        }
        rest := rest - {p};
      }
    }

    /** `process_depth_update` */
    method ProcessDepthUpdate(id: string, e: Event, timestamp: int) returns (sent: Emission)
      requires Valid()
      modifies this`orderBooks
      ensures Valid()
      ensures orderBooks == if id in old(orderBooks) then old(orderBooks)[id := ApplyEvent(old(orderBooks)[id], e)]
        else old(orderBooks)
      ensures sent == if id in old(orderBooks) && old(orderBooks)[id].initialized
        && e.final > old(orderBooks)[id].lastUpdateId
                      then Emitted(MessageOf(id, orderBooks[id], timestamp)) else Nothing
    {
      if id !in orderBooks {
        return Nothing;
      }
      var book := orderBooks[id];
      if !book.initialized {
        return Nothing;
      }
      if e.final <= book.lastUpdateId {
        return Nothing;
      }
      var bids := ApplyLevels(book.bids, e.bids);
      var asks := ApplyLevels(book.asks, e.asks);
      book := book.(bids := bids, asks := asks, lastUpdateId := e.final);
      orderBooks := orderBooks[id := book];
      sent := ToOrderBook(id, book, timestamp);
    }

    static method ToOrderBook(id: string, book: LocalBook, timestamp: int) returns (sent: Emission)
      ensures sent == Emitted(MessageOf(id, book, timestamp))
    {
      var bids := OneSide(book.bids, Buy, book.subscribedDepth);
      var asks := OneSide(book.asks, Sell, book.subscribedDepth);
      return Emitted(BookMessage(id, bids, asks, timestamp));
    }

    /** The body of `schedule_book_snapshot`, once the answer is there: it replaces whatever the book held. */
    method InstallSnapshot(id: string, s: BookSnapshot, timestamp: int) returns (sent: Emission)
      requires Valid()
      modifies this`orderBooks
      ensures Valid()
      ensures orderBooks == if id in old(orderBooks) then old(orderBooks)[id := ApplySnapshot(old(orderBooks)[id], s)]
        else old(orderBooks)
      ensures sent == if id in old(orderBooks) then Emitted(MessageOf(id, orderBooks[id], timestamp)) else Nothing
    {
      if id !in orderBooks {
        return Nothing;
      }
      var bids := LoadLevels(s.bids);
      var asks := LoadLevels(s.asks);
      var book := orderBooks[id].(bids := bids, asks := asks, lastUpdateId := s.lastUpdateId, initialized := true);
      orderBooks := orderBooks[id := book];
      sent := ToOrderBook(id, book, timestamp);
    }
  }
}
