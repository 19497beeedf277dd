/** What the execution engine keeps: cached orders, calls to exchange clients, and what these clients keep. */
module Executions {
  import opened Basics
  import opened Orders
  import opened Messages
  import OrderStores

  datatype ClientCall =
    | SubmitCall(client: string, order: Order)
    | CancelCall(client: string, order: Order)
    | ModifyCall(client: string, order: Order, quantity: real, price: real)

  datatype Desk = Desk(
    orders: OrderStores.Store,
    calls: seq<ClientCall>,
    tracked: map<(string, string), Order>,  // by client and order id: orders requested from the exchange
    pending: seq<(string, Order)>)  // orders a disconnected client holds back

  const EMPTY_DESK := Desk(OrderStores.EMPTY_STORE, [], map[], [])

  predicate Reachable(connected: map<string, bool>, client: string) {
    client in connected && connected[client]
  }

  /** The exchange client's `submit_order`. */
  function ClientTook(d: Desk, connected: map<string, bool>, client: string, o: Order): Desk {
    if Reachable(connected, client) then d.(tracked := d.tracked[(client, o.id) := o])
      else d.(pending := d.pending + [(client, o)])
  }

  function CommandDone(d: Desk, connected: map<string, bool>, m: Message): Desk {
    match m
    case SubmitOrder(Some(o)) =>
      var cached := d.(orders := OrderStores.Added(d.orders, o));
      if Reachable(connected, o.client)
      then ClientTook(cached.(calls := d.calls + [SubmitCall(o.client, o)]), connected, o.client, o)
      else cached
    case CancelOrder(Some(o)) =>
      if Reachable(connected, o.client) then d.(calls := d.calls + [CancelCall(o.client, o)]) else d
    case ModifyOrder(Some(o), quantity, price) =>
      if Reachable(connected, o.client) then d.(calls := d.calls + [ModifyCall(o.client, o, quantity, price)]) else d
    case _ => d
  }

  function EventDone(d: Desk, m: Message): Desk {
    match m
    case OrderEvent(kind, Some(o)) => d.(orders := OrderStores.Updated(d.orders, Progressed(o, kind)))
    case _ => d
  }

  /** The event as it is published: it carries the same order object, which it has moved on. */
  function MovedOn(m: Message): Message {
    match m
    case OrderEvent(kind, Some(o)) => OrderEvent(kind, Some(Progressed(o, kind)))
    case _ => m
  }

  // Over runs: what the cache makes of order events.

  datatype DeskStep =
    | CommandStep(connected: map<string, bool>, message: Message)
    | EventStep(message: Message)
    | ClearStep  // the cache is cleared

  function Worked(d: Desk, s: DeskStep): Desk {
    match s
    case CommandStep(connected, m) => CommandDone(d, connected, m)
    case EventStep(m) => EventDone(d, m)
    case ClearStep => d.(orders := OrderStores.EMPTY_STORE)
  }

  /** The steps since the cache was last cleared. */
  function SinceClear(steps: seq<DeskStep>): seq<DeskStep> {
    if steps == [] || steps[|steps| - 1].ClearStep? then [] else SinceClear(steps[..|steps| - 1]) + [steps[|steps| - 1]]
  }

  function WorkedAll(d: Desk, steps: seq<DeskStep>): Desk {
    if steps == [] then d else Worked(WorkedAll(d, steps[..|steps| - 1]), steps[|steps| - 1])
  }

  /** The order that the step submits or that its event is about. */
  function About(s: DeskStep): Maybe<Order> {
    match s
    case CommandStep(_, SubmitOrder(order)) => order
    case EventStep(OrderEvent(_, order)) => order
    case _ => None
  }

  predicate Concerns(s: DeskStep, id: string) {
    About(s).Some? && About(s).value.id == id
  }

  ghost predicate FirstAbout(steps: seq<DeskStep>, i: int, id: string) {
    0 <= i < |steps| && Concerns(steps[i], id) && forall j :: 0 <= j < i ==> !Concerns(steps[j], id)
  }

  /** The command names an order whose client is connected. */
  predicate Asks(s: DeskStep) {
    && s.CommandStep? && (s.message.SubmitOrder? || s.message.CancelOrder? || s.message.ModifyOrder?)
    && s.message.order.Some?
    && var client := s.message.order.value.client; client in s.connected && s.connected[client]
  }

  function AskedIn(steps: seq<DeskStep>): seq<Message> {
    if steps == [] then []
    else AskedIn(steps[..|steps| - 1]) + (if Asks(steps[|steps| - 1]) then [steps[|steps| - 1].message] else [])
  }

  /** The call passes the command's order to the order's own client, for what the command asks. */
  predicate Answers(call: ClientCall, m: Message) {
    && (m.SubmitOrder? || m.CancelOrder? || m.ModifyOrder?) && m.order == Some(call.order)
    && call.client == call.order.client
    && (call.SubmitCall? <==> m.SubmitOrder?) && (call.CancelCall? <==> m.CancelOrder?)
    && (call.ModifyCall? ==> m.ModifyOrder? && call.quantity == m.quantity && call.price == m.price)
  }

  predicate Submits(call: ClientCall, client: string, id: string) {
    call.SubmitCall? && call.client == client && call.order.id == id
  }

  ghost predicate LastSubmit(calls: seq<ClientCall>, i: int, client: string, id: string) {
    0 <= i < |calls| && Submits(calls[i], client, id) && forall j :: i < j < |calls| ==> !Submits(calls[j], client, id)
  }

  /** What the exchange clients keep of the calls so far: each tracks the order last submitted to it under an id, and
      since only connected clients are called none holds an order back. */
  ghost predicate ClientsKeep(d: Desk, client: string, id: string) {
    && d.pending == []
    && ((client, id) in d.tracked <==> exists i :: LastSubmit(d.calls, i, client, id))
    && forall i :: LastSubmit(d.calls, i, client, id) ==>
         (client, id) in d.tracked && d.tracked[(client, id)] == d.calls[i].order
  }

  lemma StepCalls(d: Desk, s: DeskStep)
    ensures var after := Worked(d, s);
            && after.pending == d.pending
            && (!Asks(s) ==> after.calls == d.calls && after.tracked == d.tracked)
            && (Asks(s) ==>
                 && |after.calls| == |d.calls| + 1 && after.calls[..|d.calls|] == d.calls
                 && Answers(after.calls[|d.calls|], s.message)
                 && after.tracked ==
                      var call := after.calls[|d.calls|];
                      if call.SubmitCall? then d.tracked[(call.client, call.order.id) := call.order] else d.tracked)
  {
  }

  /** Over every run the clients are called for exactly the commands whose orders' clients were connected, in order, and
      keep what these calls tell them. */
  lemma {:induction false} CallsFollowCommands(steps: seq<DeskStep>, client: string, id: string)
    ensures var d, asked := WorkedAll(EMPTY_DESK, steps), AskedIn(steps);
            && |d.calls| == |asked| && (forall i :: 0 <= i < |asked| ==> Answers(d.calls[i], asked[i]))
            && ClientsKeep(d, client, id)
  {
    hide Worked, Asks, Answers, ClientsKeep;
    if steps == [] {
      NothingKept(client, id);
    } else {
      var n := |steps| - 1;
      CallsFollowCommands(steps[..n], client, id);
      StepCalls(WorkedAll(EMPTY_DESK, steps[..n]), steps[n]);
      CallKeeps(WorkedAll(EMPTY_DESK, steps[..n]), WorkedAll(EMPTY_DESK, steps), steps[n], client, id);
    }
  }

  lemma NothingKept(client: string, id: string)
    ensures ClientsKeep(EMPTY_DESK, client, id)
  {
  }

  lemma LastSubmitSnoc(calls: seq<ClientCall>, call: ClientCall, client: string, id: string)
    ensures var after, n := calls + [call], |calls|;
            && (LastSubmit(after, n, client, id) <==> Submits(call, client, id))
            && (forall i :: i != n ==>
                 (LastSubmit(after, i, client, id) <==> LastSubmit(calls, i, client, id) && !Submits(call, client, id)))
  {
    hide Submits;
    var after, n := calls + [call], |calls|;
    assert forall i :: 0 <= i < n ==> after[i] == calls[i];
    assert after[n] == call;
  }

  lemma CallKeeps(d: Desk, after: Desk, s: DeskStep, client: string, id: string)
    requires ClientsKeep(d, client, id) && after == Worked(d, s)
    ensures ClientsKeep(after, client, id)
  {
    hide Worked, Asks, LastSubmit, Answers;
    StepCalls(d, s);
    var n := |d.calls|;
    if Asks(s) {
      var call := after.calls[n];
      assert after.calls == d.calls + [call];
      LastSubmitSnoc(d.calls, call, client, id);
      LastSubmitIn(d.calls, client, id);
      if i :| LastSubmit(d.calls, i, client, id) {
        assert !Submits(call, client, id) ==> LastSubmit(after.calls, i, client, id);
      }
    }
  }

  lemma LastSubmitIn(calls: seq<ClientCall>, client: string, id: string)
    ensures forall i :: LastSubmit(calls, i, client, id) ==> 0 <= i < |calls|
  {
  }

  /** The write to the cache that a step makes. */
  function WriteOf(s: DeskStep): (w: seq<OrderStores.Write>)
    ensures |w| <= 1
  {
    match s
    case CommandStep(_, SubmitOrder(Some(o))) => [OrderStores.AddOrder(o)]
    case EventStep(OrderEvent(kind, Some(o))) => [OrderStores.UpdateOrder(Progressed(o, kind))]
    case _ => []
  }

  /** The writes since the cache was last cleared. */
  function WritesOf(steps: seq<DeskStep>): seq<OrderStores.Write> {
    if steps == [] || steps[|steps| - 1].ClearStep? then []
      else WritesOf(steps[..|steps| - 1]) + WriteOf(steps[|steps| - 1])
  }

  /** The cached orders after any run: since the cache was last cleared, an order is held exactly if some submission was
      new when it came, and is then its last new write, whatever timestamps the orders of its commands and events
      carry. */
  lemma {:induction false} DeskRefinesHistory(steps: seq<DeskStep>, id: string)
    ensures WorkedAll(EMPTY_DESK, steps).orders == OrderStores.WroteAll(OrderStores.EMPTY_STORE, WritesOf(steps))
    ensures OrderStores.Follows(WorkedAll(EMPTY_DESK, steps).orders, WritesOf(steps), id)
  {
    hide OrderStores.Follows, OrderStores.Wrote, Worked, WriteOf;
    if steps != [] && !steps[|steps| - 1].ClearStep? {
      var n := |steps| - 1;
      DeskRefinesHistory(steps[..n], id);
      WorkedWrites(WorkedAll(EMPTY_DESK, steps[..n]), steps[n]);
      WroteLast(WritesOf(steps[..n]), WriteOf(steps[n]));
    } else if steps != [] {
      ClearForgets(WorkedAll(EMPTY_DESK, steps[..|steps| - 1]));
    }
    OrderStores.StoreRefinesHistory(WritesOf(steps), id);
  }

  lemma WroteLast(ws: seq<OrderStores.Write>, more: seq<OrderStores.Write>)
    requires |more| <= 1
    ensures var before := OrderStores.WroteAll(OrderStores.EMPTY_STORE, ws);
            OrderStores.WroteAll(OrderStores.EMPTY_STORE, ws + more) == if more == [] then before
              else OrderStores.Wrote(before, more[0])
  {
    if more == [] {
      assert ws + more == ws;
    } else {
      assert (ws + more)[..|ws|] == ws;
    }
  }

  lemma ClearForgets(d: Desk)
    ensures Worked(d, ClearStep).orders == OrderStores.EMPTY_STORE
  {
  }

  lemma WorkedWrites(d: Desk, s: DeskStep)
    requires !s.ClearStep?
    ensures Worked(d, s).orders == if WriteOf(s) == [] then d.orders else OrderStores.Wrote(d.orders, WriteOf(s)[0])
  {
  }

  /** An event reaches the cached orders exactly if its order is held and carries a later timestamp than any write of
      it. */
  lemma EventReachesIff(steps: seq<DeskStep>, kind: EventKind, o: Order)
    ensures var d, moved := WorkedAll(EMPTY_DESK, steps), Progressed(o, kind);
            EventDone(d, OrderEvent(kind, Some(o))).orders.orders ==
              if OrderStores.Known(WritesOf(steps), o.id) && OrderStores.Latest(WritesOf(steps), moved)
              then d.orders.orders[o.id := moved] else d.orders.orders
  {
    hide OrderStores.Follows, OrderStores.Updated, OrderStores.Known, OrderStores.Latest, WorkedAll;
    DeskRefinesHistory(steps, o.id);
    OrderStores.UpdateReachesIff(WorkedAll(EMPTY_DESK, steps).orders, WritesOf(steps), Progressed(o, kind));
  }

  /** What a step does to one order in the cache: the first one that concerns it decides, later ones are stale. */
  lemma WorkedAt(d: Desk, s: DeskStep, id: string)
    requires !s.ClearStep? && (id in d.orders.orders ==> id in d.orders.latest)
    requires Concerns(s, id) && id in d.orders.latest ==> About(s).value.timestamp == d.orders.latest[id]
    ensures var before, after := d.orders, Worked(d, s).orders;
            if Concerns(s, id) && id !in before.latest then
              && id in after.latest && after.latest[id] == About(s).value.timestamp
              && (id in after.orders <==> s.CommandStep?)
              && (s.CommandStep? ==> after.orders[id] == About(s).value)
            else
              && (id in after.latest <==> id in before.latest)
              && (id in before.latest ==> after.latest[id] == before.latest[id])
              && (id in after.orders <==> id in before.orders)
              && (id in before.orders ==> after.orders[id] == before.orders[id])
  {
  }

  /** For an order whose timestamp is never set anew, as in the rest of the source, this is simple: the cache holds an
      order exactly if, since it was last cleared, the order was submitted before any event about it came, and then as
      it was submitted: no event ever reaches the cached order. */
  lemma {:induction false} CachedAsSubmitted(steps: seq<DeskStep>, id: string, timestamp: int)
    requires forall i :: 0 <= i < |SinceClear(steps)| && Concerns(SinceClear(steps)[i], id) ==>
               About(SinceClear(steps)[i]).value.timestamp == timestamp
    ensures var store, recent := WorkedAll(EMPTY_DESK, steps).orders, SinceClear(steps);
            && (id in store.orders <==> exists i :: FirstAbout(recent, i, id) && recent[i].CommandStep?)
            && (forall i :: FirstAbout(recent, i, id) && recent[i].CommandStep? ==>
                 id in store.orders && store.orders[id] == About(recent[i]).value)
            && (id in store.latest <==> exists i :: FirstAbout(recent, i, id))
            && (id in store.latest ==> store.latest[id] == timestamp)
  {
    hide Worked, Concerns, About;
    if steps != [] && steps[|steps| - 1].ClearStep? {
      ClearForgets(WorkedAll(EMPTY_DESK, steps[..|steps| - 1]));
    } else if steps != [] {
      var last := |steps| - 1;
      var before, recent := SinceClear(steps[..last]), SinceClear(steps);
      var n := |before|;
      assert recent[n] == steps[last] && forall i :: 0 <= i < n ==> before[i] == recent[i];
      CachedAsSubmitted(steps[..last], id, timestamp);
      WorkedAt(WorkedAll(EMPTY_DESK, steps[..last]), steps[last], id);
      assert forall i :: 0 <= i < n ==> (FirstAbout(recent, i, id) <==> FirstAbout(before, i, id));
      SeenOnce(before, id);
      if i :| FirstAbout(before, i, id) {
        assert FirstAbout(recent, i, id);
      } else if Concerns(recent[n], id) {
        assert FirstAbout(recent, n, id);
      }
    }
  }

  /** Some step concerns the order exactly if one is the first to. */
  lemma {:induction false} SeenOnce(steps: seq<DeskStep>, id: string)
    ensures (exists i :: FirstAbout(steps, i, id)) || forall i :: 0 <= i < |steps| ==> !Concerns(steps[i], id)
  {
    if steps != [] {
      var n := |steps| - 1;
      SeenOnce(steps[..n], id);
      assert forall i :: 0 <= i < n ==> steps[..n][i] == steps[i];
      if i :| FirstAbout(steps[..n], i, id) {
        assert FirstAbout(steps, i, id);
      } else if Concerns(steps[n], id) {
        assert FirstAbout(steps, n, id);
      }
    }
  }
}
