/** The cache's orders: adds and updates behind the stale filter. Positions are kept the same way. */
module OrderStores {
  import opened Orders

  datatype Write = AddOrder(order: Order) | UpdateOrder(order: Order)

  datatype Store = Store(latest: map<string, int>, orders: map<string, Order>)

  const EMPTY_STORE := Store(map[], map[])

  predicate Stale(s: Store, o: Order) {
    o.id in s.latest && o.timestamp <= s.latest[o.id]
  }

  function Added(s: Store, o: Order): Store {
    if Stale(s, o) then s else Store(s.latest[o.id := o.timestamp], s.orders[o.id := o])
  }

  /** An update of an unknown order is handed to the add path after its own timestamp was recorded. */
  function Updated(s: Store, o: Order): Store {
    if Stale(s, o) then s
    else
      var stamped := s.(latest := s.latest[o.id := o.timestamp]);
      if o.id in s.orders then stamped.(orders := s.orders[o.id := o]) else Added(stamped, o)
  }

  function Wrote(s: Store, w: Write): Store {
    if w.AddOrder? then Added(s, w.order) else Updated(s, w.order)
  }

  function WroteAll(s: Store, ws: seq<Write>): Store {
    if ws == [] then s else Wrote(WroteAll(s, ws[..|ws| - 1]), ws[|ws| - 1])
  }

  /** Write i of an order is later than every earlier write of that order. */
  ghost predicate Fresh(ws: seq<Write>, i: int, id: string) {
    && 0 <= i < |ws| && ws[i].order.id == id
    && forall j :: 0 <= j < i && ws[j].order.id == id ==> ws[j].order.timestamp < ws[i].order.timestamp
  }

  /** An order is known from its first fresh add on; fresh updates before that are lost. */
  ghost predicate Known(ws: seq<Write>, id: string) {
    exists a :: Fresh(ws, a, id) && ws[a].AddOrder?
  }

  ghost predicate LastFresh(ws: seq<Write>, i: int, id: string) {
    Fresh(ws, i, id) && forall k :: i < k < |ws| ==> !Fresh(ws, k, id)
  }

  /** The store agrees with the history of an order: held exactly when some add was fresh, and then as the last fresh
      write; the filter remembers the latest timestamp of all writes, lost updates included. */
  ghost predicate Follows(s: Store, ws: seq<Write>, id: string) {
    && (id in s.orders <==> Known(ws, id))
    && (id in s.orders ==> id in s.latest)
    && (id !in s.latest ==> forall i :: 0 <= i < |ws| ==> ws[i].order.id != id)
    && (id in s.latest ==>
         && (forall i :: 0 <= i < |ws| && ws[i].order.id == id ==> ws[i].order.timestamp <= s.latest[id])
         && exists i :: StandsAt(s, ws, i, id))
  }

  ghost predicate StandsAt(s: Store, ws: seq<Write>, i: int, id: string)
    requires id in s.latest
  {
    LastFresh(ws, i, id) && ws[i].order.timestamp == s.latest[id] && (id in s.orders ==> s.orders[id] == ws[i].order)
  }

  lemma FreshSnoc(ws: seq<Write>, w: Write, id: string)
    ensures var after, n := ws + [w], |ws|;
            && (forall i :: 0 <= i < n ==> (Fresh(after, i, id) <==> Fresh(ws, i, id)) && after[i] == ws[i])
            && (Fresh(after, n, id) <==> w.order.id == id && forall j :: 0 <= j < n && ws[j].order.id == id ==>
                 ws[j].order.timestamp < w.order.timestamp)
            && (Known(after, id) <==> Known(ws, id) || (Fresh(after, n, id) && w.AddOrder?))
  {
    var after, n := ws + [w], |ws|;
    assert forall i :: 0 <= i < n ==> after[i] == ws[i];
    assert after[n] == w;
    if Known(ws, id) {
      var a :| Fresh(ws, a, id) && ws[a].AddOrder?;
      assert Fresh(after, a, id) && after[a].AddOrder?;
    }
  }

  lemma FollowsStep(s: Store, ws: seq<Write>, w: Write, id: string)
    requires Follows(s, ws, id)
    ensures Follows(Wrote(s, w), ws + [w], id)
  {
    var after, n, s' := ws + [w], |ws|, Wrote(s, w);
    FreshSnoc(ws, w, id);
    if id in s.latest {
      var i :| StandsAt(s, ws, i, id);
      assert w.order.id == id ==> (Fresh(after, n, id) <==> !Stale(s, w.order));
      if Fresh(after, n, id) {
        assert StandsAt(s', after, n, id);
      } else {
        assert StandsAt(s', after, i, id);
      }
    } else if w.order.id == id {
      assert StandsAt(s', after, n, id);
    }
  }

  /** The order is later than every write of its id. */
  ghost predicate Latest(ws: seq<Write>, o: Order) {
    forall i :: 0 <= i < |ws| && ws[i].order.id == o.id ==> ws[i].order.timestamp < o.timestamp
  }

  /** An update shows exactly if the order is held and later than every write of it. */
  lemma UpdateReachesIff(s: Store, ws: seq<Write>, o: Order)
    requires Follows(s, ws, o.id)
    ensures Updated(s, o).orders == if Known(ws, o.id) && Latest(ws, o) then s.orders[o.id := o] else s.orders
  {
    if o.id in s.latest {
      var i :| StandsAt(s, ws, i, o.id);
      assert ws[i].order.id == o.id && ws[i].order.timestamp == s.latest[o.id];
    }
  }

  /** What any run of adds and updates stores. */
  lemma {:induction false} StoreRefinesHistory(ws: seq<Write>, id: string)
    ensures Follows(WroteAll(EMPTY_STORE, ws), ws, id)
  {
    if ws != [] {
      var n := |ws| - 1;
      StoreRefinesHistory(ws[..n], id);
      FollowsStep(WroteAll(EMPTY_STORE, ws[..n]), ws[..n], ws[n], id);
      assert ws == ws[..n] + [ws[n]];
    }
  }

  /** `add_order` and `update_order` on the maps the cache holds. */
  class OrderCache {
    var latest: map<string, int>
    var orders: map<string, Order>

    function State(): Store
      reads this
    {
      Store(latest, orders)
    }

    constructor ()
      ensures State() == EMPTY_STORE
    {
      latest, orders := map[], map[];
    }

    method IsStaleAndUpdate(id: string, timestamp: int) returns (stale: bool)
      modifies this`latest
      ensures stale <==> id in old(latest) && timestamp <= old(latest)[id]
      ensures latest == if stale then old(latest) else old(latest)[id := timestamp]
    {
      if id in latest && timestamp <= latest[id] {
        return true;
      }
      latest := latest[id := timestamp];
      return false;
    }

    /** `clear`: orders and their timestamps are forgotten. */
    method Clear()
      modifies this
      ensures State() == EMPTY_STORE
    {
      latest, orders := map[], map[];
    }

    method Add(order: Order)
      modifies this
      ensures State() == Added(old(State()), order)
    {
      var stale := IsStaleAndUpdate(order.id, order.timestamp);
      if stale {
        return;
      }
      orders := orders[order.id := order];
    }

    method Update(order: Order)
      modifies this
      ensures State() == Updated(old(State()), order)
    {
      var stale := IsStaleAndUpdate(order.id, order.timestamp);
      if stale {
        return;
      }
      if order.id in orders {
        orders := orders[order.id := order];
      } else {
        Add(order);
      }
    }
  }
}
