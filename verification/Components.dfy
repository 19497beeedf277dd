/** The engines as components on the bus, and the node whose loop drains it. */
module Components {
  import opened Basics
  import opened Orders
  import opened Executions
  import OrderStores
  import opened Channels
  import opened DataEngines
  import opened MessageBuses
  import opened Messages
  import opened Caches
  import opened Pipeline
  import opened Deliveries
  import opened Drains

  /** `RiskEngine`: every check is a stub, so with risk on every command is denied. */
  class RiskEngine {
    const bypassRisk: bool
    const bus: MessageBus<Message, Handler>

    constructor (bypassRisk: bool, bus: MessageBus<Message, Handler>)
      ensures this.bypassRisk == bypassRisk && this.bus == bus
    {
      this.bypassRisk, this.bus := bypassRisk, bus;
    }

    method HandleExecute(m: Message)
      requires bus.Valid()
      modifies bus`queue, bus`accepted
      ensures bus.Valid() && bus.queue == OfferedIf(old(bus.queue), bus.capacity, bus.running, RiskEmits(bypassRisk, m))
    {
      if !IsTradingCommand(m) {
        return;
      }
      if bypassRisk {
        bus.Send(EXEC_ENGINE_EXECUTE, m);
      } else if m.SubmitOrder? {
        DenyOrder(m.order);
      }
    }

    method DenyOrder(order: Maybe<Order>)
      requires bus.Valid()
      modifies bus`queue, bus`accepted
      ensures bus.Valid()
      ensures bus.queue == OfferedIf(old(bus.queue), bus.capacity, bus.running,
                                     if order.Some?
                                     then Some(Queued(EXEC_ENGINE_PROCESS, OrderEvent(OrderDenied, order), false))
                                     else None)
    {
      if order.None? {
        return;
      }
      bus.Send(EXEC_ENGINE_PROCESS, OrderEvent(OrderDenied, order));
    }
  }

  /** `ExecutionEngine`, with what its exchange clients keep: whether each is connected, the orders it requested from
      the exchange, and the ones it holds back. */
  class ExecutionEngine {
    const bus: MessageBus<Message, Handler>
    const orders: OrderStores.OrderCache
    var connected: map<string, bool>
    var calls: seq<ClientCall>
    var tracked: map<(string, string), Order>
    var pending: seq<(string, Order)>

    function State(): Desk
      reads this, orders
    {
      Desk(orders.State(), calls, tracked, pending)
    }

    constructor (bus: MessageBus<Message, Handler>, orders: OrderStores.OrderCache)
      ensures this.bus == bus && this.orders == orders && connected == map[]
      ensures calls == [] && tracked == map[] && pending == []
    {
      this.bus, this.orders, connected := bus, orders, map[];
      calls, tracked, pending := [], map[], [];
    }

    /** Registers an exchange client, or notes that its connection came up or went down. */
    method SetClient(id: string, isConnected: bool)
      modifies this`connected
      ensures connected == old(connected)[id := isConnected]
    {
      connected := connected[id := isConnected];
    }

    method HandleExecute(m: Message)
      requires bus.Valid()
      modifies bus`queue, bus`accepted, this`calls, this`tracked, this`pending, orders
      ensures bus.Valid()
        && bus.queue == OfferedIf(old(bus.queue), bus.capacity, bus.running, ExecExecuteEmits(connected, m))
      ensures State() == CommandDone(old(State()), connected, m)
    {
      match m {
        case SubmitOrder(order) =>
          if order.Some? {
            Submit(order.value);
          }
        case CancelOrder(order) =>
          if order.Some? && Reachable(connected, order.value.client) {
            calls := calls + [CancelCall(order.value.client, order.value)];
          }
        case ModifyOrder(order, quantity, price) =>
          if order.Some? && Reachable(connected, order.value.client) {
            calls := calls + [ModifyCall(order.value.client, order.value, quantity, price)];
          }
        case _ =>
      }
    }

    method Submit(order: Order)
      requires bus.Valid()
      modifies bus`queue, bus`accepted, this`calls, this`tracked, this`pending, orders
      ensures bus.Valid()
      ensures bus.queue ==
        OfferedIf(old(bus.queue), bus.capacity, bus.running, ExecExecuteEmits(connected, SubmitOrder(Some(order))))
      ensures State() == CommandDone(old(State()), connected, SubmitOrder(Some(order)))
    {
      hide Offered, OrderStores.Added;
      orders.Add(order);
      var client := order.client;
      if client !in connected {
        bus.Publish(ORDER_EVENT_TOPIC, OrderEvent(OrderRejected, Some(order)));
        return;
      }
      if !connected[client] {
        bus.Publish(ORDER_EVENT_TOPIC, OrderEvent(OrderRejected, Some(order)));
        return;
      }
      calls := calls + [SubmitCall(client, order)];
      ClientSubmitOrder(client, order);
    }

    /** The exchange client announces the order at once, and requests it or holds it back; what the exchange answers
        comes later from outside. */
    method ClientSubmitOrder(client: string, order: Order)
      requires bus.Valid()
      modifies bus`queue, bus`accepted, this`tracked, this`pending
      ensures bus.Valid()
      ensures bus.queue == Offered(old(bus.queue), bus.capacity, bus.running,
                                   Queued(EXEC_ENGINE_PROCESS, OrderEvent(OrderSubmitted, Some(order)), false))
      ensures State() == ClientTook(old(State()), connected, client, order)
    {
      bus.Send(EXEC_ENGINE_PROCESS, OrderEvent(OrderSubmitted, Some(order)));
      if !Reachable(connected, client) {
        pending := pending + [(client, order)];
        return;
      }
      tracked := tracked[(client, order.id) := order];
    }

    /** An event moves the order it carries on and hands it to the cache, then it is published. */
    method HandleProcess(m: Message)
      requires bus.Valid()
      modifies bus`queue, bus`accepted, orders
      ensures bus.Valid() && bus.queue == OfferedIf(old(bus.queue), bus.capacity, bus.running, ExecProcessEmits(m))
      ensures State() == EventDone(old(State()), m)
    {
      if m.OrderEvent? {
        var moved := m;
        if m.order.Some? {
          moved := OrderEvent(m.kind, Some(Progressed(m.order.value, m.kind)));
          orders.Update(moved.order.value);
        }
        bus.Publish(ORDER_EVENT_TOPIC, moved);
      }
    }
  }

  /** `DataEngine` */
  class DataEngine {
    const bus: MessageBus<Message, Handler>
    const cache: Cache<Message>
    var clients: map<string, DataClient>
    var venueToClient: map<string, string>
    var defaultClientId: string
    var refcount: map<Key, int>
    var pinnedClient: map<Key, string>
    var bookActiveDepth: map<string, int>
    var bookDepthCounts: map<string, map<int, int>>

    function State(): Engine
      reads this
    {
      Engine(clients, venueToClient, defaultClientId, refcount, pinnedClient, bookActiveDepth, bookDepthCounts)
    }

    ghost predicate Valid()
      reads this
    {
      EngineValid(State())
    }

    constructor (bus: MessageBus<Message, Handler>, cache: Cache<Message>)
      ensures Valid() && refcount == map[] && clients == map[] && defaultClientId == ""
      ensures this.bus == bus && this.cache == cache
    {
      this.bus, this.cache := bus, cache;
      clients, venueToClient, defaultClientId := map[], map[], "";
      refcount, pinnedClient, bookActiveDepth, bookDepthCounts := map[], map[], map[], map[];
    }

    /** Stores the client as it comes, with whatever it is already subscribed to. */
    method RegisterClient(id: string, venue: string, client: DataClient)
      modifies this`clients, this`venueToClient, this`defaultClientId
      ensures State() == RegisteredClient(old(State()), id, venue, client)
      ensures old(Valid()) ==> (Valid() <==> Fits(old(State()), id, client))
    {
      ghost var before := State();
      if EngineValid(before) {
        RegisterKeepsValidIff(before, id, venue, client);
      }
      if defaultClientId == "" {
        defaultClientId := id;
      }
      clients := clients[id := client];
      venueToClient := venueToClient[venue := id];
    }

    static method DeepestRequest(counts: map<int, int>) returns (deepest: int)
      ensures deepest == MaxDepth(counts)
    {
      deepest := 0;
      var rest := counts.Keys;
      while rest != {}
        invariant rest <= counts.Keys
        invariant deepest >= 0 && (deepest == 0 || (deepest in counts && counts[deepest] > 0))
        invariant forall d :: d in counts.Keys - rest && counts[d] > 0 ==> d <= deepest
        decreases rest
      {
        ghost var some := Any(rest);
        var depth :| depth in rest;
        if counts[depth] > 0 && depth > deepest {
          deepest := depth;
        }
        rest := rest - {depth};
      }
      MaxDepthUnique(counts, deepest);
    }

    method SubscribeClient(client: string, k: Key, depth: int)
      modifies this`clients
      ensures State() == SubscribeAt(old(State()), client, k, depth)
    {
      if client in clients {
        clients := clients[client := ClientSubscribed(clients[client], k, depth)];
      }
    }

    method UnsubscribeClient(client: string, k: Key)
      modifies this`clients
      ensures State() == UnsubscribeAt(old(State()), client, k)
    {
      if client in clients {
        clients := clients[client := ClientUnsubscribed(clients[client], k)];
      }
    }

    /** The subscription commands; `venueOf` gives the venue of each cached instrument. */
    method HandleExecute(venueOf: map<string, string>, cmd: Command)
      requires Valid()
      modifies this
      ensures Valid() && State() == Executed(old(State()), venueOf, cmd)
    {
      ExecutedValid(State(), venueOf, cmd);
      match cmd {
        case Subscribe(channel, client, depth) =>
          if channel.Book? {
            SubscribeBook(venueOf, channel, client, depth);
          } else {
            SubscribeStream(venueOf, channel, client);
          }
        case Unsubscribe(channel) =>
          UnsubscribeKey(KeyOf(channel));
      }
    }

    method SubscribeStream(venueOf: map<string, string>, channel: Channel, client: string)
      requires !channel.Book?
      modifies this
      ensures State() == Executed(old(State()), venueOf, Subscribe(channel, client, 0))
    {
      hide SelectClient, StreamSubscribed, BookSubscribed, KeyUnsubscribed;
      var k := KeyOf(channel);
      var chosen := SelectClient(State(), venueOf, channel.id, client);
      if chosen == "" {
        return;
      }
      CountStream(k, chosen);
    }

    /** Raises the count; a first subscription pins its client and goes to it. */
    method CountStream(k: Key, chosen: string)
      modifies this
      ensures State() == StreamSubscribed(old(State()), k, chosen)
    {
      hide SubscribeAt;
      var n := (if k in refcount then refcount[k] else 0) + 1;
      refcount := refcount[k := n];
      if n == 1 {
        pinnedClient := pinnedClient[k := chosen];
        SubscribeClient(chosen, k, 0);
      }
    }

    method SubscribeBook(venueOf: map<string, string>, channel: Channel, client: string, depth: int)
      requires channel.Book?
      modifies this
      ensures State() == Executed(old(State()), venueOf, Subscribe(channel, client, depth))
    {
      var k := KeyOf(channel);
      var chosen := SelectClient(State(), venueOf, channel.id, client);
      if chosen == "" {
        return;
      }
      var n, previous := CountBook(k, chosen, depth);
      ghost var counted := State();
      var active := bookActiveDepth[k.id];
      if n == 1 {
        SubscribeClient(chosen, k, active);
      } else if active > previous && k in pinnedClient {
        var pinned := pinnedClient[k];
        UnsubscribeClient(pinned, k);
        assert State() == UnsubscribeAt(counted, pinned, k);
        SubscribeClient(pinned, k, active);
      }
    }

    /** Raises the count and the counted depth, pins the client of a first subscription, and deepens the active
        depth. */
    method CountBook(k: Key, chosen: string, depth: int) returns (n: int, previous: int)
      requires k.BookKey?
      modifies this`refcount, this`pinnedClient, this`bookActiveDepth, this`bookDepthCounts
      ensures State() == BookCounted(old(State()), k, chosen, depth)
      ensures n == Count(old(State()), k) + 1 && previous == ActiveDepth(old(State()), k.id)
      ensures k.id in bookActiveDepth && (n != 1 ==> pinnedClient == old(pinnedClient))
    {
      hide MaxDepth, Counted;
      n := Count(State(), k) + 1;
      previous := ActiveDepth(State(), k.id);
      var counts := Counted(DepthCounts(State(), k.id), depth);
      var deepest := DeepestRequest(counts);
      var active := if n == 1 || deepest > previous then deepest else previous;
      if n == 1 {
        pinnedClient := pinnedClient[k := chosen];
      }
      refcount, bookActiveDepth, bookDepthCounts :=
        refcount[k := n], bookActiveDepth[k.id := active], bookDepthCounts[k.id := counts];
    }

    method UnsubscribeKey(k: Key)
      modifies this
      ensures State() == if Count(old(State()), k) <= 0 then old(State()) else KeyUnsubscribed(old(State()), k)
    {
      if k !in refcount || refcount[k] <= 0 {
        return;
      }
      if refcount[k] == 1 {
        if k in pinnedClient {
          UnsubscribeClient(pinnedClient[k], k);
          pinnedClient := pinnedClient - {k};
        }
        assert old(pinnedClient) - {k} == pinnedClient;
        refcount := refcount - {k};
        if k.BookKey? {
          bookActiveDepth := bookActiveDepth - {k.id};
          bookDepthCounts := bookDepthCounts - {k.id};
        }
      } else {
        refcount := refcount[k := refcount[k] - 1];
      }
    }

    /** `handle_process`: cache first, then publish. */
    method HandleProcess(m: Message)
      requires bus.Valid() && cache.Valid() && bus !in cache.Rings && this !in cache.Rings
      modifies bus`queue, bus`accepted, cache, cache.Rings
      ensures bus.Valid() && cache.Valid() && fresh(cache.Rings - old(cache.Rings))
      ensures cache.offers == old(cache.offers) + (if m.MarketData? then [OfferOf(m)] else [])
      ensures cache.Kept() == if m.MarketData? then Added(old(cache.Kept()), cache.KeepsHistory(), OfferOf(m))
        else old(cache.Kept())
      ensures bus.queue == OfferedIf(old(bus.queue), bus.capacity, bus.running, DataProcessEmits(m))
    {
      hide Added, AddedAll;
      if m.MarketData? {
        cache.Add(CacheKeyOf(m.key), Tick(m.timestamp, m));
        bus.Publish(Topic(m.key), m);
      }
    }

    /** The bars of a historical request, each cached and then published on its own topic. */
    method ReplayBars(bars: seq<DataMessage>)
      requires bus.Valid() && cache.Valid() && bus !in cache.Rings && this !in cache.Rings
      modifies bus`queue, bus`accepted, cache, cache.Rings
      ensures bus.Valid() && cache.Valid() && fresh(cache.Rings - old(cache.Rings))
      ensures cache.offers == old(cache.offers) + OffersOf(bars)
      ensures cache.Kept() == AddedAll(old(cache.Kept()), cache.KeepsHistory(), OffersOf(bars))
      ensures bus.queue == PublishedAll(old(bus.queue), bus.capacity, bus.running, bars)
    {
      hide Added, Offered, Topic, CacheKeyOf, Cache.RingsValid, Consistent;
      ghost var kept, offers, queue := cache.Kept(), cache.offers, bus.queue;
      for i := 0 to |bars|
        invariant bus.Valid() && cache.Valid() && fresh(cache.Rings - old(cache.Rings)) && bus !in cache.Rings
          && this !in cache.Rings
        invariant cache.offers == offers + OffersOf(bars[..i])
        invariant cache.Kept() == AddedAll(kept, cache.KeepsHistory(), OffersOf(bars[..i]))
        invariant bus.queue == PublishedAll(queue, bus.capacity, bus.running, bars[..i])
      {
        OffersLast(bars[..i + 1]);
        assert bars[..i + 1][..i] == bars[..i];
        cache.Add(CacheKeyOf(bars[i].key), Tick(bars[i].timestamp, bars[i]));
        bus.Publish(Topic(bars[i].key), bars[i]);
      }
      assert bars[..|bars|] == bars;
    }
  }

  function OffersOf(bars: seq<DataMessage>): seq<Offer<Message>> {
    seq(|bars|, i requires 0 <= i < |bars| => OfferOf(bars[i]))
  }

  lemma OffersLast(bars: seq<DataMessage>)
    requires bars != []
    ensures var n := |bars| - 1;
            OffersOf(bars) == OffersOf(bars[..n]) + [OfferOf(bars[n])] && OffersOf(bars)[..n] == OffersOf(bars[..n])
  {
  }

  function PublishedAll(queue: seq<Envelope>, capacity: nat, running: bool, bars: seq<DataMessage>): seq<Envelope> {
    if bars == [] then queue
    else
      var n := |bars| - 1;
      Offered(PublishedAll(queue, capacity, running, bars[..n]), capacity, running,
        Queued(Topic(bars[n].key), bars[n], true))
  }

  /** As many bars are published as the queue has room for, in order, each on the topic of its own key. */
  lemma {:induction false} PublishedAllFits(queue: seq<Envelope>, capacity: nat, running: bool, bars: seq<DataMessage>)
    requires |queue| <= capacity
    ensures var after := PublishedAll(queue, capacity, running, bars);
            var room := if !running then 0 else if |bars| < capacity - |queue| then |bars| else capacity - |queue|;
            && queue <= after && |after| == |queue| + room
            && forall i :: 0 <= i < room ==>
                 after[|queue| + i] == Put(History(bars[i]))
  {
    hide Topic;
    if bars != [] {
      var last := |bars| - 1;
      PublishedAllFits(queue, capacity, running, bars[..last]);
      assert forall i :: 0 <= i < last ==> bars[..last][i] == bars[i];
    }
  }

  function Histories(cfg: Config, bars: seq<DataMessage>): seq<RunStep> {
    seq(|bars|, i requires 0 <= i < |bars| => RunStep(cfg, History(bars[i])))
  }

  /** Replaying bars is a run of their histories. */
  lemma {:induction false} ReplayIsHistory(cfg: Config, n: Node, bars: seq<DataMessage>)
    ensures var after := ActedAll(n, Histories(cfg, bars));
            && after.kept == AddedAll(n.kept, cfg.keepsHistory, OffersOf(bars))
            && after.queue == PublishedAll(n.queue, cfg.capacity, true, bars)
  {
    hide Topic, Added, CacheKeyOf;
    if bars != [] {
      var last := |bars| - 1;
      ReplayIsHistory(cfg, n, bars[..last]);
      OffersLast(bars);
      assert Histories(cfg, bars)[..last] == Histories(cfg, bars[..last]);
    }
  }

  /** The bus together with the engines registered on it. */
  class TradingNode {
    const bus: MessageBus<Message, Handler>
    const cache: Cache<Message>
    const risk: RiskEngine
    const exec: ExecutionEngine
    const data: DataEngine
    const venueOf: map<string, string>
    ghost var deliveries: seq<Delivery>

    /** Each engine endpoint has the handler of its engine, and everything else registered is an actor's callback. */
    ghost predicate Wired()
      reads this, bus`endpoints, bus`subscribers
    {
      && (forall e :: e in bus.endpoints && !bus.endpoints[e].Listener? ==> HandlerOf(e) == Some(bus.endpoints[e]))
      && (forall e :: HandlerOf(e).Some? ==> e in bus.endpoints && bus.endpoints[e] == HandlerOf(e).value)
      && OnlyListeners()
    }

    /** Topics are subscribed by actors only. */
    ghost predicate OnlyListeners()
      reads this, bus`subscribers
    {
      forall topic, token :: topic in bus.subscribers && token in bus.subscribers[topic] ==>
        bus.subscribers[topic][token].Listener?
    }

    /** The engines share this bus and cache. */
    ghost predicate Shared() {
      risk.bus == bus && exec.bus == bus && data.bus == bus && data.cache == cache
    }

    ghost predicate Valid()
      reads this, bus, cache, cache.Rings, data
    {
      && Shared() && Wired() && bus.Valid() && cache.Valid() && data.Valid()
      && {this, bus, data, exec, exec.orders} !! cache.Rings
    }

    ghost function Settings(): Config
      reads exec, bus`subscribers, bus`tokenToTopic, bus`nextToken
    {
      Config(risk.bypassRisk, exec.connected, venueOf, bus.capacity, cache.KeepsHistory(),
             Registry(bus.subscribers, bus.tokenToTopic, bus.nextToken))
    }

    ghost function State(): Node
      reads this, bus, cache, data, exec, exec.orders
    {
      Node(bus.queue, bus.handled, cache.Kept(), data.State(), exec.State(), deliveries)
    }

    constructor (bus: MessageBus<Message, Handler>, cache: Cache<Message>, risk: RiskEngine, exec: ExecutionEngine,
                 data: DataEngine, venueOf: map<string, string>)
      ensures this.bus == bus && this.cache == cache && this.risk == risk && this.exec == exec && this.data == data
      ensures this.venueOf == venueOf && deliveries == []
    {
      this.bus, this.cache, this.risk, this.exec, this.data, this.venueOf := bus, cache, risk, exec, data, venueOf;
      deliveries := [];
    }

    /** The engines register their handlers; whatever else is registered on the bus stays. */
    method Initialize()
      requires Shared() && bus.Valid() && cache.Valid() && data.Valid()
        && {this, bus, data, exec, exec.orders} !! cache.Rings
      requires OnlyListeners() && forall e :: e in bus.endpoints && HandlerOf(e).None? ==> bus.endpoints[e].Listener?
      modifies bus`endpoints
      ensures Valid() && State() == old(State()) && bus.endpoints == WithEngines(old(bus.endpoints))
    {
      hide HandlerOf, WithEngines, RingBuffer.Valid;
      ghost var before := bus.endpoints;
      RegisterEngines(bus);
      forall e
        ensures e in bus.endpoints && !bus.endpoints[e].Listener? ==> HandlerOf(e) == Some(bus.endpoints[e])
        ensures HandlerOf(e).Some? ==> e in bus.endpoints && bus.endpoints[e] == HandlerOf(e).value
      {
        EndpointsMatch(before, e);
      }
    }

    static method RegisterEngines(bus: MessageBus<Message, Handler>)
      requires bus.Valid()
      modifies bus`endpoints
      ensures bus.Valid() && bus.endpoints == WithEngines(old(bus.endpoints))
    {
      hide MessageBuses.Consistent;
      var ok := bus.RegisterHandler(DATA_ENGINE_EXECUTE, DataExecute);
      ok := bus.RegisterHandler(DATA_ENGINE_PROCESS, DataProcess);
      ok := bus.RegisterHandler(DATA_ENGINE_PROCESS_HISTORICAL, DataProcess);
      ok := bus.RegisterHandler(DATA_ENGINE_RESPONSE, DataResponse);
      ok := bus.RegisterHandler(EXEC_ENGINE_EXECUTE, ExecExecute);
      ok := bus.RegisterHandler(EXEC_ENGINE_PROCESS, ExecProcess);
      ok := bus.RegisterHandler(RISK_ENGINE_EXECUTE, RiskExecute);
      ok := bus.RegisterHandler(RISK_ENGINE_PROCESS, RiskProcess);
    }

    /** The callback of an engine; an actor's callback sends nothing. */
    method Call(h: Handler, m: Message)
      requires Valid()
      modifies bus`queue, bus`accepted, data, cache, cache.Rings, exec`calls, exec`tracked, exec`pending, exec.orders
      ensures Valid() && fresh(cache.Rings - old(cache.Rings))
      ensures bus.queue == OfferedIf(old(bus.queue), bus.capacity, bus.running, HandlerEmits(Settings(), h, m))
      ensures cache.Kept() ==
        (if h.DataProcess? && m.MarketData? then Added(old(cache.Kept()), cache.KeepsHistory(), OfferOf(m))
                               else old(cache.Kept()))
      ensures data.State() ==
        (if h.DataExecute? && m.DataCommand? then Executed(old(data.State()), venueOf, m.command)
         else old(data.State()))
      ensures exec.State() == (if h.ExecExecute? then CommandDone(old(exec.State()), exec.connected, m)
                               else if h.ExecProcess? then EventDone(old(exec.State()), m) else old(exec.State()))
    {
      hide Wired, Cache.Valid, MessageBus.Valid, EngineValid, Offered, Executed, Added, CommandDone, EventDone;
      hide RiskEmits, ExecExecuteEmits, ExecProcessEmits, DataProcessEmits;
      match h {
        case RiskExecute => risk.HandleExecute(m);
        case ExecExecute => exec.HandleExecute(m);
        case ExecProcess => exec.HandleProcess(m);
        case DataExecute =>
          if m.DataCommand? {
            data.HandleExecute(venueOf, m.command);
          }
        case DataProcess => data.HandleProcess(m);
        case _ =>
      }
    }

    /** `process_message` */
    method ProcessMessage(q: Envelope)
      requires Valid()
      modifies bus`queue, bus`accepted, data, cache, cache.Rings, exec`calls, exec`tracked, exec`pending, exec.orders,
        this`deliveries
      ensures Valid() && fresh(cache.Rings - old(cache.Rings))
      ensures bus.queue == OfferedIf(old(bus.queue), bus.capacity, bus.running, Emits(Settings(), q))
      ensures State() == Effects(Settings(), old(State()), q).(queue := bus.queue)
    {
      hide Wired, Cache.Valid, MessageBus.Valid, EngineValid, HandlerEmits, Effects, Offered;
      if q.isPublish {
        Deliver(q);
      } else {
        Dispatch(q);
      }
    }

    /** Calls the handler of every token registered for the topic. These belong to actors, and send nothing. */
    method Deliver(q: Envelope)
      requires Valid() && q.isPublish
      modifies this`deliveries
      ensures Valid() && bus.queue == old(bus.queue)
      ensures State() == Effects(Settings(), old(State()), q)
    {
      hide Cache.Valid, EngineValid, MessageBus.Valid;
      var tokens, calls := bus.Recipients(q);
      ghost var called := CallEach(tokens, calls, Handlers(bus.Subscriptions(), q.target));
      deliveries := deliveries + [Delivery(q.message, called, CachedFor(cache.Kept(), q.message))];
    }

    static method CallEach(tokens: seq<nat>, calls: seq<Handler>, ghost handlers: map<nat, Handler>)
      returns (ghost called: map<nat, Handler>)
      requires |calls| == |tokens| && forall token :: token in tokens <==> token in handlers
      requires forall i :: 0 <= i < |tokens| ==> tokens[i] in handlers && calls[i] == handlers[tokens[i]]
      requires forall token :: token in handlers ==> handlers[token].Listener?
      ensures called == handlers
    {
      called := map[];
      for i := 0 to |calls|
        invariant forall token :: token in called <==> token in tokens[..i]
        invariant forall j :: 0 <= j < i ==> called[tokens[j]] == calls[j]
      {
        assert calls[i].Listener?;
        called := called[tokens[i] := calls[i]];
      }
      assert tokens[..|calls|] == tokens;
      CalledAll(handlers, tokens, calls, called);
    }

    method Dispatch(q: Envelope)
      requires Valid() && !q.isPublish
      modifies bus`queue, bus`accepted, data, cache, cache.Rings, exec`calls, exec`tracked, exec`pending, exec.orders
      ensures Valid() && fresh(cache.Rings - old(cache.Rings))
      ensures bus.queue == OfferedIf(old(bus.queue), bus.capacity, bus.running, Emits(Settings(), q))
      ensures State() == Effects(Settings(), old(State()), q).(queue := bus.queue)
    {
      hide Cache.Valid, MessageBus.Valid, EngineValid, Offered, Executed, Added, CommandDone, EventDone;
      hide RiskEmits, ExecExecuteEmits, ExecProcessEmits, DataProcessEmits;
      var _, calls := bus.Recipients(q);
      if calls != [] {
        Call(calls[0], q.message);
      }
    }

    /** One turn of the loop of `run()`. */
    method Turn()
      requires Valid() && bus.running && bus.queue != []
      modifies bus`queue, bus`accepted, data, cache, cache.Rings, exec`calls, exec`tracked, exec`pending, exec.orders
      modifies bus`handled, bus`processed, this`deliveries
      ensures Valid() && fresh(cache.Rings - old(cache.Rings))
      ensures State() == Handled(Settings(), old(State()))
    {
      hide Wired, Cache.Valid, MessageBus.Valid, EngineValid, Emits, Offered, Effects;
      ghost var before, settings := State(), Settings();
      var q := bus.Take();
      EffectsOnQueue(settings, before, State(), q);
      ProcessMessage(q);
    }

    /** `run()`: drains the queue, re-queued messages included. Calling it on a stopped bus is an error. */
    method Run() returns (ok: bool)
      requires Valid()
      modifies bus`queue, bus`accepted, data, cache, cache.Rings, exec`calls, exec`tracked, exec`pending, exec.orders
      modifies bus`handled, bus`processed, this`deliveries
      ensures Valid() && ok == bus.running
      ensures ok ==> bus.queue == [] && State() == Drained(Settings(), old(State()))
      ensures ok ==> Fed(Settings(), old(State()), State(), CommandsIn(old(bus.queue)), OffersIn(old(bus.queue)))
      ensures ok ==> old(bus.handled) <= bus.handled
      ensures ok ==> Served(Settings(), old(State()), State(), bus.handled[|old(bus.handled)|..])
      ensures !ok ==> State() == old(State())
      ensures Covered(old(State())) ==> Covered(State())
      ensures ok && CacheSound(old(State()).kept) ==> (DeliveriesCovered(deliveries) <==> Covered(old(State())))
    {
      hide Wired, Cache.Valid, EngineValid, Handled, Weight, Covered, CacheSound, QueueCovered, DeliveriesCovered;
      hide Fed, Served, Consistent, CommandsIn, OffersIn;
      if !bus.running {
        return false;
      }
      ghost var start := State();
      CoveredParts(start);
      if CacheSound(start.kept) {
        DrainCoversIff(Settings(), start);
      }
      DrainFeeds(Settings(), start);
      DrainServes(Settings(), start);
      while bus.running && bus.queue != []
        invariant Valid() && bus.running && fresh(cache.Rings - old(cache.Rings))
        invariant Drained(Settings(), State()) == Drained(Settings(), start)
        decreases Weight(bus.queue)
      {
        HandlingFits(Settings(), State());
        Turn();
      }
      return true;
    }

    /** One turn of the loop of `stop()`. */
    method LastTurn()
      requires Valid() && !bus.running && bus.queue != []
      modifies bus`queue, bus`accepted, data, cache, cache.Rings, exec`calls, exec`tracked, exec`pending, exec.orders
      modifies bus`handled, bus`processed, this`deliveries
      ensures Valid() && fresh(cache.Rings - old(cache.Rings))
      ensures State() == HandledLast(Settings(), old(State())) && bus.queue == old(bus.queue)[1..]
    {
      hide Wired, Cache.Valid, MessageBus.Valid, EngineValid, Emits, Effects;
      ghost var before, settings := State(), Settings();
      var q := bus.Take();
      EffectsOnQueue(settings, before, State(), q);
      ProcessMessage(q);
    }

    /** `stop()`: handles what is queued with the bus already stopped, so everything these messages send is dropped. */
    method Stop()
      requires Valid()
      modifies bus`queue, bus`accepted, data, cache, cache.Rings, exec`calls, exec`tracked, exec`pending, exec.orders
      modifies bus`running, bus`handled, bus`processed, this`deliveries
      ensures Valid() && !bus.running
      ensures old(bus.running) ==> State() == Flushed(Settings(), old(State()))
      ensures old(bus.running) ==>
        && Fed(Settings(), old(State()), State(), CommandsIn(old(bus.queue)), OffersIn(old(bus.queue)))
        && Served(Settings(), old(State()), State(), old(bus.queue))
      ensures !old(bus.running) ==> State() == old(State())
      ensures Covered(old(State())) ==> Covered(State())
    {
      hide Wired, Cache.Valid, MessageBus.Valid, EngineValid, HandledLast, Covered;
      hide Fed, Served, Consistent, CommandsIn, OffersIn;
      if !bus.running {
        return;
      }
      ghost var start := State();
      if Covered(start) {
        FlushKeepsCovered(Settings(), start);
      }
      FlushFeeds(Settings(), start);
      bus.RegistryIsConsistent();
      FlushServes(Settings(), start);
      bus.Halt();
      while bus.queue != []
        invariant Valid() && !bus.running && fresh(cache.Rings - old(cache.Rings))
        invariant Flushed(Settings(), State()) == Flushed(Settings(), start)
        decreases |bus.queue|
      {
        LastTurn();
      }
    }
  }
}
