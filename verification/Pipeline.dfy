/** What the engines put back on the queue while the bus drains it, and what a whole drain comes to. */
module Pipeline {
  import opened Basics
  import opened Orders
  import opened Channels
  import opened DataEngines
  import opened MessageBuses
  import opened Messages
  import opened Caches
  import opened Executions

  type Envelope = Queued<Message>

  /** The handler each engine registers for its endpoint when it is initialised. */
  function HandlerOf(endpoint: string): Maybe<Handler> {
    if endpoint == RISK_ENGINE_EXECUTE then Some(RiskExecute)
    else if endpoint == RISK_ENGINE_PROCESS then Some(RiskProcess)
    else if endpoint == EXEC_ENGINE_EXECUTE then Some(ExecExecute)
    else if endpoint == EXEC_ENGINE_PROCESS then Some(ExecProcess)
    else if endpoint == DATA_ENGINE_EXECUTE then Some(DataExecute)
    else if endpoint == DATA_ENGINE_PROCESS || endpoint == DATA_ENGINE_PROCESS_HISTORICAL then Some(DataProcess)
    else if endpoint == DATA_ENGINE_RESPONSE then Some(DataResponse)
    else None
  }

  /** No two endpoints share a name, so each finds its own handler. */
  lemma EndpointHandlers()
    ensures HandlerOf(RISK_ENGINE_EXECUTE) == Some(RiskExecute) && HandlerOf(RISK_ENGINE_PROCESS) == Some(RiskProcess)
    ensures HandlerOf(EXEC_ENGINE_EXECUTE) == Some(ExecExecute) && HandlerOf(EXEC_ENGINE_PROCESS) == Some(ExecProcess)
    ensures HandlerOf(DATA_ENGINE_EXECUTE) == Some(DataExecute) && HandlerOf(DATA_ENGINE_RESPONSE) == Some(DataResponse)
    ensures HandlerOf(DATA_ENGINE_PROCESS) == HandlerOf(DATA_ENGINE_PROCESS_HISTORICAL) == Some(DataProcess)
  {
    assert RISK_ENGINE_EXECUTE[0] == RISK_ENGINE_PROCESS[0] == 'R'
      && EXEC_ENGINE_EXECUTE[0] == EXEC_ENGINE_PROCESS[0] == 'E';
    assert DATA_ENGINE_EXECUTE[0] == DATA_ENGINE_PROCESS[0] == DATA_ENGINE_PROCESS_HISTORICAL[0]
      == DATA_ENGINE_RESPONSE[0] == 'D';
    assert RISK_ENGINE_EXECUTE[11] == EXEC_ENGINE_EXECUTE[11] == DATA_ENGINE_EXECUTE[11] == 'e';
    assert RISK_ENGINE_PROCESS[11] == EXEC_ENGINE_PROCESS[11] == DATA_ENGINE_PROCESS[11]
      == DATA_ENGINE_PROCESS_HISTORICAL[11] == 'p';
    assert DATA_ENGINE_RESPONSE[11] == 'r' && |DATA_ENGINE_PROCESS| != |DATA_ENGINE_PROCESS_HISTORICAL|;
  }

  /** The endpoints once the engines have registered theirs, in the order in which they do. */
  function WithEngines(endpoints: map<string, Handler>): map<string, Handler> {
    endpoints[DATA_ENGINE_EXECUTE := DataExecute][DATA_ENGINE_PROCESS := DataProcess]
      [DATA_ENGINE_PROCESS_HISTORICAL := DataProcess][DATA_ENGINE_RESPONSE := DataResponse]
      [EXEC_ENGINE_EXECUTE := ExecExecute][EXEC_ENGINE_PROCESS := ExecProcess]
      [RISK_ENGINE_EXECUTE := RiskExecute][RISK_ENGINE_PROCESS := RiskProcess]
  }

  lemma EndpointsMatch(endpoints: map<string, Handler>, e: string)
    ensures var after := WithEngines(endpoints);
            if HandlerOf(e).Some? then e in after && after[e] == HandlerOf(e).value && !after[e].Listener?
            else (e in after <==> e in endpoints) && (e in endpoints ==> after[e] == endpoints[e])
  {
    EndpointHandlers();
  }

  // What each handler enqueues.

  predicate IsTradingCommand(m: Message) {
    m.SubmitOrder? || m.CancelOrder? || m.ModifyOrder? || m.CancelAllOrders?
  }

  /** Approved commands go on to execution; a denied order becomes an event. All are denied unless risk is bypassed. */
  function RiskEmits(bypassRisk: bool, m: Message): Maybe<Envelope> {
    if !IsTradingCommand(m) then None
    else if bypassRisk then Some(Queued(EXEC_ENGINE_EXECUTE, m, false))
    else if m.SubmitOrder? && m.order.Some?
    then Some(Queued(EXEC_ENGINE_PROCESS, OrderEvent(OrderDenied, m.order), false))
    else None
  }

  /** An order for a missing or disconnected client is rejected; the exchange client announces one it takes. */
  function ExecExecuteEmits(connected: map<string, bool>, m: Message): Maybe<Envelope> {
    if !m.SubmitOrder? || m.order.None? then None
    else if Reachable(connected, m.order.value.client)
    then Some(Queued(EXEC_ENGINE_PROCESS, OrderEvent(OrderSubmitted, m.order), false))
    else Some(Queued(ORDER_EVENT_TOPIC, OrderEvent(OrderRejected, m.order), true))
  }

  /** An event is published with its order moved on by it. */
  function ExecProcessEmits(m: Message): Maybe<Envelope> {
    if m.OrderEvent? then Some(Queued(ORDER_EVENT_TOPIC, MovedOn(m), true)) else None
  }

  function DataProcessEmits(m: Message): Maybe<Envelope> {
    if m.MarketData? then Some(Queued(Topic(m.key), m, true)) else None
  }

  /** What a drain does not change: topic subscribers return without sending or subscribing. */
  datatype Config = Config(
    bypassRisk: bool,
    connected: map<string, bool>,
    venueOf: map<string, string>,
    capacity: nat,
    keepsHistory: set<Kind>,
    subscriptions: Registry<Handler>)

  function Emits(cfg: Config, q: Envelope): Maybe<Envelope> {
    if q.isPublish || HandlerOf(q.target).None? then None else HandlerEmits(cfg, HandlerOf(q.target).value, q.message)
  }

  function HandlerEmits(cfg: Config, h: Handler, m: Message): Maybe<Envelope> {
    match h
    case RiskExecute => RiskEmits(cfg.bypassRisk, m)
    case ExecExecute => ExecExecuteEmits(cfg.connected, m)
    case ExecProcess => ExecProcessEmits(m)
    case DataProcess => DataProcessEmits(m)
    case _ => None
  }

  /** How many more stages a message can go through. */
  function Rank(q: Envelope): nat {
    if q.isPublish then 1
    else
      match HandlerOf(q.target)
      case Some(RiskExecute) => 4
      case Some(ExecExecute) => 3
      case Some(ExecProcess) => 2
      case Some(DataProcess) => 2
      case _ => 1
  }

  lemma EmittedRankIsLower(cfg: Config, q: Envelope)
    ensures Emits(cfg, q).Some? ==> 1 <= Rank(Emits(cfg, q).value) < Rank(q)
  {
    EndpointHandlers();
  }

  /** A message and everything its handling gives rise to. */
  function Chain(cfg: Config, q: Envelope): seq<Envelope>
    decreases Rank(q)
  {
    EmittedRankIsLower(cfg, q);
    [q] + (if Emits(cfg, q).Some? then Chain(cfg, Emits(cfg, q).value) else [])
  }

  function Weight(queue: seq<Envelope>): nat {
    if queue == [] then 0 else Weight(queue[..|queue| - 1]) + Rank(queue[|queue| - 1])
  }

  function Chains(cfg: Config, queue: seq<Envelope>): multiset<Envelope> {
    if queue == [] then multiset{} else Chains(cfg, queue[..|queue| - 1]) + multiset(Chain(cfg, queue[|queue| - 1]))
  }

  lemma {:induction false} WeightOfHead(queue: seq<Envelope>)
    requires queue != []
    ensures Weight(queue) == Rank(queue[0]) + Weight(queue[1..])
  {
    hide Rank;
    var n := |queue| - 1;
    if n == 0 {
      assert queue[..0] == [] && queue[1..] == [];
    } else {
      WeightOfHead(queue[..n]);
      assert queue[..n][1..] == queue[1..][..n - 1];
    }
  }

  lemma {:induction false} ChainsOfHead(cfg: Config, queue: seq<Envelope>)
    requires queue != []
    ensures Chains(cfg, queue) == multiset(Chain(cfg, queue[0])) + Chains(cfg, queue[1..])
  {
    hide Chain;
    var n := |queue| - 1;
    if n == 0 {
      assert queue[..0] == [] && queue[1..] == [];
    } else {
      var tail := queue[1..];
      ChainsOfHead(cfg, queue[..n]);
      assert queue[..n][1..] == tail[..n - 1] && queue[..n][0] == queue[0] && tail[n - 1] == queue[n];
      assert Chains(cfg, tail) == Chains(cfg, tail[..n - 1]) + multiset(Chain(cfg, queue[n]));
    }
  }

  lemma ChainSplits(cfg: Config, q: Envelope)
    ensures multiset(Chain(cfg, q)) ==
              multiset([q]) + (if Emits(cfg, q).Some? then multiset(Chain(cfg, Emits(cfg, q).value)) else multiset{})
  {
    var tail := if Emits(cfg, q).Some? then Chain(cfg, Emits(cfg, q).value) else [];
    assert Chain(cfg, q) == [q] + tail;
  }

  // The state the drain works on.

  /** A published message handed to the handlers registered for its topic, by token, with what the cache then holds
      under its key if it is market data. */
  datatype Delivery = Delivery(message: Message, calls: map<nat, Handler>, cached: Maybe<Message>)

  datatype Node = Node(
    queue: seq<Envelope>,
    handled: seq<Envelope>,
    kept: View<Message>,
    engine: Engine,
    desk: Desk,
    deliveries: seq<Delivery>)

  function CacheKeyOf(k: Key): CacheKey {
    match k
    case QuoteKey(id) => CacheKey(Quotes, id)
    case TradeKey(id) => CacheKey(Trades, id)
    case BarKey(text) => CacheKey(Bars, text)
    case BookKey(id) => CacheKey(Books, id + "|default")
  }

  lemma CacheKeysAreDistinct(k: Key, l: Key)
    ensures CacheKeyOf(k) == CacheKeyOf(l) <==> k == l
  {
    if k.BookKey? && l.BookKey? && CacheKeyOf(k) == CacheKeyOf(l) {
      assert k.id == CacheKeyOf(k).text[..|k.id|] && l.id == CacheKeyOf(l).text[..|l.id|];
    }
  }

  function OfferOf(m: DataMessage): Offer<Message> {
    Offer(CacheKeyOf(m.key), Tick(m.timestamp, m))
  }

  /** The value the cache holds for a market data message's key. */
  function CachedFor(v: View<Message>, m: Message): Maybe<Message> {
    if m.MarketData? && CacheKeyOf(m.key) in v.values then Some(v.values[CacheKeyOf(m.key)]) else None
  }

  function OfferedIf(queue: seq<Envelope>, capacity: nat, running: bool, q: Maybe<Envelope>): seq<Envelope> {
    if q.Some? then Offered(queue, capacity, running, q.value) else queue
  }

  function OfferedTo(cfg: Config, queue: seq<Envelope>, q: Maybe<Envelope>): seq<Envelope> {
    OfferedIf(queue, cfg.capacity, true, q)
  }

  predicate Processes(q: Envelope, h: Handler) {
    !q.isPublish && HandlerOf(q.target) == Some(h)
  }

  /** What handling a message does besides the queue: market data is cached, commands and order events are carried out,
      publications are delivered. */
  ghost function Effects(cfg: Config, n: Node, q: Envelope): Node {
    n.(kept := if Processes(q, DataProcess) && q.message.MarketData?
               then Added(n.kept, cfg.keepsHistory, OfferOf(q.message)) else n.kept,
       engine := if Processes(q, DataExecute) && q.message.DataCommand?
                 then Executed(n.engine, cfg.venueOf, q.message.command) else n.engine,
       desk := if Processes(q, ExecExecute) then CommandDone(n.desk, cfg.connected, q.message)
               else if Processes(q, ExecProcess) then EventDone(n.desk, q.message) else n.desk,
       deliveries := if q.isPublish
                     then n.deliveries
                       + [Delivery(q.message, Handlers(cfg.subscriptions, q.target), CachedFor(n.kept, q.message))]
                     else n.deliveries)
  }

  lemma EffectsOnQueue(cfg: Config, n: Node, taken: Node, q: Envelope)
    requires taken == n.(queue := taken.queue, handled := taken.handled)
    ensures Effects(cfg, taken, q) == Effects(cfg, n, q).(queue := taken.queue, handled := taken.handled)
  {
  }

  /** One turn of the drain; the bus is running and topic subscribers send nothing. */
  ghost function Handled(cfg: Config, n: Node): Node
    requires n.queue != []
  {
    var q := n.queue[0];
    Effects(cfg, n, q).(queue := OfferedTo(cfg, n.queue[1..], Emits(cfg, q)), handled := n.handled + [q])
  }

  /** While the queue is within its bound a handler's message always fits, the queue does not grow, and the weight
      falls. */
  lemma HandlingFits(cfg: Config, n: Node)
    requires n.queue != [] && |n.queue| <= cfg.capacity
    ensures var next, emitted := Handled(cfg, n).queue, Emits(cfg, n.queue[0]);
            && next == n.queue[1..] + (if emitted.Some? then [emitted.value] else [])
            && |next| <= |n.queue| && Weight(next) < Weight(n.queue)
  {
    hide Emits, Effects;
    var q, rest := n.queue[0], n.queue[1..];
    WeightOfHead(n.queue);
    EmittedRankIsLower(cfg, q);
    if Emits(cfg, q).Some? {
      assert (rest + [Emits(cfg, q).value])[..|rest|] == rest;
    }
  }

  /** Handling a message leaves the rest of its chain, and everyone else's, still to be handled. */
  lemma HandlingLosesNothing(cfg: Config, n: Node)
    requires n.queue != [] && |n.queue| <= cfg.capacity
    ensures multiset([n.queue[0]]) + Chains(cfg, Handled(cfg, n).queue) == Chains(cfg, n.queue)
  {
    hide Chain, Rank, Emits, Effects;
    var q, rest := n.queue[0], n.queue[1..];
    HandlingFits(cfg, n);
    ChainsOfHead(cfg, n.queue);
    ChainSplits(cfg, q);
    if Emits(cfg, q).Some? {
      assert (rest + [Emits(cfg, q).value])[..|rest|] == rest;
    }
  }

  /** `run()`: handle messages until none is queued. */
  ghost function Drained(cfg: Config, n: Node): Node
    requires |n.queue| <= cfg.capacity
    decreases Weight(n.queue)
  {
    if n.queue == [] then n
    else
      HandlingFits(cfg, n);
      Drained(cfg, Handled(cfg, n))
  }

  /** After any number of turns of a drain the queue is no longer than it was. */
  ghost function HandledTimes(cfg: Config, n: Node, times: nat): Node
    requires |n.queue| <= cfg.capacity
    ensures |HandledTimes(cfg, n, times).queue| <= |n.queue|
    decreases times
  {
    if times == 0 || n.queue == [] then n
    else
      HandlingFits(cfg, n);
      HandledTimes(cfg, Handled(cfg, n), times - 1)
  }

  /** Every drain ends with an empty queue, having handled each queued message and everything it gave rise to exactly
      once and nothing else. */
  lemma {:induction false} DrainHandlesEveryChain(cfg: Config, n: Node)
    requires |n.queue| <= cfg.capacity
    ensures var d := Drained(cfg, n);
            d.queue == [] && multiset(d.handled) == multiset(n.handled) + Chains(cfg, n.queue)
    decreases Weight(n.queue)
  {
    hide Emits, Effects, Chain;
    if n.queue != [] {
      HandlingFits(cfg, n);
      HandlingLosesNothing(cfg, n);
      DrainHandlesEveryChain(cfg, Handled(cfg, n));
    }
  }

  /** A drain takes at most four turns for each queued message. */
  lemma {:induction false} DrainTurns(cfg: Config, n: Node)
    requires |n.queue| <= cfg.capacity
    ensures n.handled <= Drained(cfg, n).handled
    ensures |Drained(cfg, n).handled| <= |n.handled| + Weight(n.queue) <= |n.handled| + 4 * |n.queue|
    decreases Weight(n.queue)
  {
    hide Emits, Effects;
    WeightBound(n.queue);
    if n.queue != [] {
      HandlingFits(cfg, n);
      DrainTurns(cfg, Handled(cfg, n));
    }
  }

  lemma {:induction false} WeightBound(queue: seq<Envelope>)
    ensures Weight(queue) <= 4 * |queue|
  {
    hide HandlerOf;
    if queue != [] {
      WeightBound(queue[..|queue| - 1]);
    }
  }

  /** A submitted order that names an order is answered by exactly one published event for that order: denied when risk
      is on, rejected when its client cannot take it, submitted otherwise. The first and the last carry the order as
      moved on by the event; a rejection is published at once, with the order as submitted. */
  lemma SubmittedOrderIsAnswered(cfg: Config, o: Order)
    ensures var chain := Chain(cfg, Queued(RISK_ENGINE_EXECUTE, SubmitOrder(Some(o)), false));
            var answer := if !cfg.bypassRisk then OrderDenied
                          else if o.client in cfg.connected && cfg.connected[o.client] then OrderSubmitted
                          else OrderRejected;
            var carried := if answer.OrderRejected? then o else Progressed(o, answer);
            && chain != [] && chain[|chain| - 1] == Queued(ORDER_EVENT_TOPIC, OrderEvent(answer, Some(carried)), true)
            && (forall i :: 0 <= i < |chain| - 1 ==> !chain[i].isPublish)
  {
    EndpointHandlers();
    hide HandlerOf;
    var q0 := Queued(RISK_ENGINE_EXECUTE, SubmitOrder(Some(o)), false);
    var q1 := Emits(cfg, q0).value;
    var q2 := Emits(cfg, q1).value;
    assert Chain(cfg, q0) == [q0] + Chain(cfg, q1);
    assert Chain(cfg, q1) == [q1] + Chain(cfg, q2);
    if !q2.isPublish {
      var q3 := Emits(cfg, q2).value;
      assert Chain(cfg, q2) == [q2] + Chain(cfg, q3);
    }
  }

  /** Events end as exactly one publication of their own with their order moved on, market data as one publication;
      other commands publish nothing. */
  lemma OthersEndAsPublished(cfg: Config, m: Message)
    ensures m.OrderEvent? ==>
      Chain(cfg, Queued(EXEC_ENGINE_PROCESS, m, false)) ==
        [Queued(EXEC_ENGINE_PROCESS, m, false),
         Queued(ORDER_EVENT_TOPIC, if m.order.Some? then m.(order := Some(Progressed(m.order.value, m.kind)))
           else m, true)]
    ensures m.MarketData? ==>
      Chain(cfg, Queued(DATA_ENGINE_PROCESS, m, false)) ==
        [Queued(DATA_ENGINE_PROCESS, m, false), Queued(Topic(m.key), m, true)]
    ensures m.CancelOrder? || m.ModifyOrder? || m.CancelAllOrders? ==>
      Chain(cfg, Queued(RISK_ENGINE_EXECUTE, m, false)) ==
        [Queued(RISK_ENGINE_EXECUTE, m, false)] + if cfg.bypassRisk then [Queued(EXEC_ENGINE_EXECUTE, m, false)] else []
  {
    EndpointHandlers();
    var execute := Queued(EXEC_ENGINE_EXECUTE, m, false);
    assert Chain(cfg, Queued(ORDER_EVENT_TOPIC, MovedOn(m), true)) == [Queued(ORDER_EVENT_TOPIC, MovedOn(m), true)];
    if m.MarketData? {
      assert Chain(cfg, Queued(Topic(m.key), m, true)) == [Queued(Topic(m.key), m, true)];
    }
    if m.CancelOrder? || m.ModifyOrder? || m.CancelAllOrders? {
      assert Chain(cfg, execute) == [execute];
    }
  }

  /** The announcement of an order and the call that submits it to its client go together. */
  lemma AnnouncedIffSubmitted(connected: map<string, bool>, d: Desk, m: Message, o: Order)
    ensures var announced := Queued(EXEC_ENGINE_PROCESS, OrderEvent(OrderSubmitted, Some(o)), false);
            ExecExecuteEmits(connected, m) == Some(announced) <==>
              CommandDone(d, connected, m).calls == d.calls + [SubmitCall(o.client, o)]
  {
    var calls := CommandDone(d, connected, m).calls;
    if calls == d.calls + [SubmitCall(o.client, o)] {
      assert |calls| == |d.calls| + 1 && calls[|d.calls|] == SubmitCall(o.client, o);
    }
  }

  /** `stop()`: the queue is worked off once, and what handlers send then is dropped. */
  ghost function Flushed(cfg: Config, n: Node): Node
    decreases |n.queue|
  {
    if n.queue == [] then n else Flushed(cfg, HandledLast(cfg, n))
  }

  /** One turn of it: the bus no longer takes anything. */
  ghost function HandledLast(cfg: Config, n: Node): Node
    requires n.queue != []
  {
    Effects(cfg, n, n.queue[0]).(queue := n.queue[1..], handled := n.handled + [n.queue[0]])
  }

  lemma {:induction false} FlushHandlesQueueOnly(cfg: Config, n: Node)
    ensures Flushed(cfg, n).queue == [] && Flushed(cfg, n).handled == n.handled + n.queue
    decreases |n.queue|
  {
    hide Effects;
    if n.queue != [] {
      FlushHandlesQueueOnly(cfg, HandledLast(cfg, n));
    }
  }
}
