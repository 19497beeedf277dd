/** What subscribers get over whole runs of the node: market data only once the cache holds it, and each key's data in
    the order in which it came. */
module Deliveries {
  import opened Basics
  import opened Channels
  import opened Messages
  import opened MessageBuses
  import opened Caches
  import opened Executions
  import opened DataEngines
  import opened Pipeline
  import OrderStores

  datatype Act =
    | HandleOne
    | HandleLast  // one turn of `stop()`
    | Arrive(envelope: Envelope)  // any other component sends or publishes
    | History(bar: DataMessage)  // one bar of a historical request: cached, then published
    | ClearCache

  ghost function Acted(cfg: Config, n: Node, act: Act): Node {
    match act
    case HandleOne => if n.queue == [] then n else Handled(cfg, n)
    case HandleLast => if n.queue == [] then n else HandledLast(cfg, n)
    case Arrive(q) => n.(queue := OfferedTo(cfg, n.queue, Some(q)))
    case History(m) =>
      n.(kept := Added(n.kept, cfg.keepsHistory, OfferOf(m)),
         queue := OfferedTo(cfg, n.queue, Some(Queued(Topic(m.key), m, true))))
    case ClearCache => n.(kept := NOTHING, desk := n.desk.(orders := OrderStores.EMPTY_STORE))
  }

  const NOTHING: View<Message> := View(map[], map[], map[])

  /** An act and the subscriptions, connections and instruments at the time. */
  datatype RunStep = RunStep(cfg: Config, act: Act)

  ghost function ActedAll(n: Node, steps: seq<RunStep>): Node {
    if steps == [] then n
    else
      var last := |steps| - 1;
      Acted(steps[last].cfg, ActedAll(n, steps[..last]), steps[last].act)
  }

  // Write before publish.

  predicate PublishesData(q: Envelope) {
    q.isPublish && q.message.MarketData?
  }

  predicate StoresData(q: Envelope) {
    Processes(q, DataProcess) && q.message.MarketData?
  }

  predicate Upholds(held: Message, m: DataMessage) {
    held.MarketData? && held.key == m.key && held.timestamp >= m.timestamp
  }

  /** The cache holds, under the message's key, market data of that key at that time or later. */
  ghost predicate Covers(v: View<Message>, m: DataMessage) {
    CacheKeyOf(m.key) in v.values && Upholds(v.values[CacheKeyOf(m.key)], m)
  }

  /** One of these messages will bring market data of that key at that time or later to the cache. */
  ghost predicate StoredBy(queue: seq<Envelope>, m: DataMessage) {
    exists j :: 0 <= j < |queue| && StoresData(queue[j]) && Upholds(queue[j].message, m)
  }

  /** What is held under a key is market data of that key, at the key's latest timestamp. */
  ghost predicate CacheSound(v: View<Message>) {
    && v.latest.Keys == v.values.Keys
    && forall c :: c in v.values ==>
         v.values[c].MarketData? && CacheKeyOf(v.values[c].key) == c && v.values[c].timestamp == v.latest[c]
  }

  /** Each queued publication is covered by the cache, or by what is stored ahead of it. */
  ghost predicate QueueCovered(v: View<Message>, queue: seq<Envelope>) {
    forall i :: 0 <= i < |queue| && PublishesData(queue[i]) ==>
      Covers(v, queue[i].message) || StoredBy(queue[..i], queue[i].message)
  }

  /** What was delivered was in the cache. */
  ghost predicate DeliveriesCovered(deliveries: seq<Delivery>) {
    forall i :: 0 <= i < |deliveries| ==> DeliveryCovered(deliveries[i])
  }

  predicate DeliveryCovered(d: Delivery) {
    d.message.MarketData? ==> d.cached.Some? && Upholds(d.cached.value, d.message)
  }

  ghost predicate Covered(n: Node) {
    CacheSound(n.kept) && QueueCovered(n.kept, n.queue) && DeliveriesCovered(n.deliveries)
  }

  /** Storing a message covers exactly what was covered before and what the message upholds, stale or not. */
  lemma StoringCovers(v: View<Message>, keepsHistory: set<Kind>, m: DataMessage, other: DataMessage)
    requires CacheSound(v)
    ensures var after := Added(v, keepsHistory, OfferOf(m));
            CacheSound(after) && (Covers(after, other) <==> Covers(v, other) || Upholds(m, other))
  {
    hide CacheKeyOf;
    var c := CacheKeyOf(m.key);
    CacheKeysAreDistinct(other.key, m.key);
    if c in v.values {
      CacheKeysAreDistinct(v.values[c].key, m.key);
    }
  }

  /** What handling a message does to the cache. */
  lemma EffectsCover(cfg: Config, n: Node, q: Envelope, m: DataMessage)
    requires CacheSound(n.kept)
    ensures var after := Effects(cfg, n, q).kept;
            CacheSound(after) && (Covers(after, m) <==> Covers(n.kept, m) || (StoresData(q) && Upholds(q.message, m)))
  {
    hide CacheSound, Covers, Upholds, Processes, Added, Executed, CommandDone, EventDone;
    if StoresData(q) {
      StoringCovers(n.kept, cfg.keepsHistory, q.message, m);
    }
  }

  /** What it delivers. */
  lemma EffectsDeliver(cfg: Config, n: Node, q: Envelope)
    ensures var after := Effects(cfg, n, q).deliveries;
            && n.deliveries <= after
            && (DeliveriesCovered(after) <==>
                 DeliveriesCovered(n.deliveries) && (PublishesData(q) ==> Covers(n.kept, q.message)))
  {
    hide DeliveryCovered, Processes, Added, Executed, CommandDone, EventDone;
    var after := Effects(cfg, n, q).deliveries;
    assert forall i :: 0 <= i < |n.deliveries| ==> after[i] == n.deliveries[i];
    if q.isPublish {
      assert after[|n.deliveries|] ==
        Delivery(q.message, Handlers(cfg.subscriptions, q.target), CachedFor(n.kept, q.message));
      LastCovered(n.kept, q.message, Handlers(cfg.subscriptions, q.target));
    }
  }

  lemma LastCovered(v: View<Message>, m: Message, calls: map<nat, Handler>)
    ensures DeliveryCovered(Delivery(m, calls, CachedFor(v, m))) <==> (m.MarketData? ==> Covers(v, m))
  {
  }

  /** A message behind another is covered there exactly if it is behind what is left once the other is handled. */
  lemma StoredByTail(queue: seq<Envelope>, m: DataMessage)
    requires queue != []
    ensures StoredBy(queue, m) <==> (StoresData(queue[0]) && Upholds(queue[0].message, m)) || StoredBy(queue[1..], m)
  {
    hide Upholds, Processes;
    if StoredBy(queue[1..], m) {
      var j :| 0 <= j < |queue[1..]| && StoresData(queue[1..][j]) && Upholds(queue[1..][j].message, m);
      assert queue[j + 1] == queue[1..][j];
    }
    if StoredBy(queue, m) {
      var j :| 0 <= j < |queue| && StoresData(queue[j]) && Upholds(queue[j].message, m);
      assert j > 0 ==> queue[1..][j - 1] == queue[j];
    }
  }

  /** The head is delivered from the cache as it is; the others find what handling the head leaves. */
  lemma QueueCoveredTail(cfg: Config, n: Node)
    requires CacheSound(n.kept) && n.queue != []
    ensures QueueCovered(n.kept, n.queue) <==>
              && (PublishesData(n.queue[0]) ==> Covers(n.kept, n.queue[0].message))
              && QueueCovered(Effects(cfg, n, n.queue[0]).kept, n.queue[1..])
  {
    hide CacheSound, Covers, StoredBy, Effects, Upholds, Processes;
    var q, rest, after := n.queue[0], n.queue[1..], Effects(cfg, n, n.queue[0]).kept;
    forall i | 0 <= i < |rest| && PublishesData(rest[i])
      ensures n.queue[i + 1] == rest[i]
      ensures Covers(after, rest[i].message) || StoredBy(rest[..i], rest[i].message) <==>
                Covers(n.kept, rest[i].message) || StoredBy(n.queue[..i + 1], rest[i].message)
    {
      assert n.queue[..i + 1][1..] == rest[..i] && n.queue[..i + 1][0] == q;
      EffectsCover(cfg, n, q, rest[i].message);
      StoredByTail(n.queue[..i + 1], rest[i].message);
    }
    if PublishesData(q) {
      NothingAhead(n.queue, q.message);
    }
    assert forall i :: 0 < i < |n.queue| ==> n.queue[i] == rest[i - 1];
  }

  lemma NothingAhead(queue: seq<Envelope>, m: DataMessage)
    ensures !StoredBy(queue[..0], m)
  {
  }

  /** Only the data engine's handler publishes market data. */
  lemma EmittedData(cfg: Config, q: Envelope)
    ensures Emits(cfg, q).Some? ==>
      (PublishesData(Emits(cfg, q).value) <==> StoresData(q)) && !StoresData(Emits(cfg, q).value)
    ensures StoresData(q) ==> Emits(cfg, q) == Some(Queued(Topic(q.message.key), q.message, true))
  {
    EndpointHandlers();
    hide HandlerOf;
  }

  /** What a handler publishes joins a queue that its own effect covers. */
  lemma EmissionIsCovered(cfg: Config, n: Node, q: Envelope, rest: seq<Envelope>)
    requires CacheSound(n.kept)
    ensures var after := Effects(cfg, n, q).kept;
            QueueCovered(after, OfferedTo(cfg, rest, Emits(cfg, q))) <==> QueueCovered(after, rest)
  {
    hide CacheSound, Covers, StoredBy, Effects, Emits, StoresData, PublishesData;
    var after, longer := Effects(cfg, n, q).kept, OfferedTo(cfg, rest, Emits(cfg, q));
    assert forall i :: 0 <= i < |rest| ==> longer[i] == rest[i] && longer[..i] == rest[..i];
    EmittedData(cfg, q);
    if StoresData(q) {
      StoredCovers(cfg, n, q);
    }
    assert forall i :: |rest| <= i < |longer| ==> Emits(cfg, q) == Some(longer[i]);
  }

  lemma StoredCovers(cfg: Config, n: Node, q: Envelope)
    requires CacheSound(n.kept) && StoresData(q)
    ensures Covers(Effects(cfg, n, q).kept, q.message)
  {
    hide CacheSound, Covers, Effects;
    EffectsCover(cfg, n, q, q.message);
  }

  lemma EffectsOnly(cfg: Config, n: Node)
    requires n.queue != []
    ensures var q := n.queue[0];
            && Handled(cfg, n) ==
                 Effects(cfg, n, q).(queue := OfferedTo(cfg, n.queue[1..], Emits(cfg, q)), handled := n.handled + [q])
            && HandledLast(cfg, n) == Effects(cfg, n, q).(queue := n.queue[1..], handled := n.handled + [q])
  {
  }

  /** A turn keeps everything covered, and uncovers nothing that was not bound to be, whether or not the bus still takes
      what the handler sends. */
  lemma TurnKeepsCoveredIff(cfg: Config, n: Node)
    requires CacheSound(n.kept) && n.queue != []
    ensures CacheSound(Handled(cfg, n).kept) && CacheSound(HandledLast(cfg, n).kept)
    ensures Covered(Handled(cfg, n)) <==> Covered(n)
    ensures Covered(HandledLast(cfg, n)) <==> Covered(n)
  {
    hide CacheSound, Covers, QueueCovered, DeliveriesCovered, Effects, Emits, PublishesData, Handled, HandledLast,
      OfferedTo;
    var q := n.queue[0];
    EffectsOnly(cfg, n);
    SoundAfter(cfg, n, q);
    EffectsDeliver(cfg, n, q);
    QueueCoveredTail(cfg, n);
    EmissionIsCovered(cfg, n, q, n.queue[1..]);
  }

  lemma SoundAfter(cfg: Config, n: Node, q: Envelope)
    requires CacheSound(n.kept)
    ensures CacheSound(Effects(cfg, n, q).kept)
  {
    hide CacheSound, Effects;
    EffectsCover(cfg, n, q, MarketData(QuoteKey(""), 0, ""));
  }

  /** The drain of `run()` delivers only what the cache holds exactly if each queued publication is covered by the cache
      or by what is stored ahead of it. */
  lemma {:induction false} DrainCoversIff(cfg: Config, n: Node)
    requires |n.queue| <= cfg.capacity && CacheSound(n.kept)
    ensures CacheSound(Drained(cfg, n).kept) && (Covered(Drained(cfg, n)) <==> Covered(n))
    ensures DeliveriesCovered(Drained(cfg, n).deliveries) <==>
      DeliveriesCovered(n.deliveries) && QueueCovered(n.kept, n.queue)
    decreases Weight(n.queue)
  {
    hide CacheSound, Handled, DeliveriesCovered;
    if n.queue != [] {
      hide QueueCovered;
      HandlingFits(cfg, n);
      TurnKeepsCoveredIff(cfg, n);
      DrainCoversIff(cfg, Handled(cfg, n));
    }
  }

  /** And so does the last pass of `stop()`. */
  lemma {:induction false} FlushCoversIff(cfg: Config, n: Node)
    requires CacheSound(n.kept)
    ensures CacheSound(Flushed(cfg, n).kept) && (Covered(Flushed(cfg, n)) <==> Covered(n))
    ensures DeliveriesCovered(Flushed(cfg, n).deliveries) <==>
      DeliveriesCovered(n.deliveries) && QueueCovered(n.kept, n.queue)
    decreases |n.queue|
  {
    hide CacheSound, Effects, DeliveriesCovered;
    if n.queue != [] {
      hide QueueCovered;
      TurnKeepsCoveredIff(cfg, n);
      FlushCoversIff(cfg, HandledLast(cfg, n));
    }
  }

  lemma FlushKeepsCovered(cfg: Config, n: Node)
    requires Covered(n)
    ensures Covered(Flushed(cfg, n))
  {
    FlushCoversIff(cfg, n);
  }

  lemma CoveredParts(n: Node)
    ensures Covered(n) <==> CacheSound(n.kept) && QueueCovered(n.kept, n.queue) && DeliveriesCovered(n.deliveries)
  {
  }

  /** The cache is cleared only if every queued publication has its data stored again ahead of it, and somebody else
      publishes market data only behind what covers it. */
  ghost predicate Allowed(cfg: Config, n: Node, act: Act) {
    match act
    case ClearCache =>
      forall i :: 0 <= i < |n.queue| && PublishesData(n.queue[i]) ==> StoredBy(n.queue[..i], n.queue[i].message)
    case Arrive(q) =>
      PublishesData(q) && |n.queue| < cfg.capacity ==> Covers(n.kept, q.message) || StoredBy(n.queue, q.message)
    case _ => true
  }

  /** An act keeps everything covered exactly when it is allowed. */
  lemma ActKeepsCoveredIff(cfg: Config, n: Node, act: Act)
    requires Covered(n)
    ensures Covered(Acted(cfg, n, act)) <==> Allowed(cfg, n, act)
  {
    hide CacheSound, Covers, DeliveriesCovered, StoredBy, Handled, HandledLast, Added, PublishesData;
    match act {
      case HandleOne =>
        if n.queue != [] {
          TurnKeepsCoveredIff(cfg, n);
        }
      case HandleLast =>
        if n.queue != [] {
          TurnKeepsCoveredIff(cfg, n);
        }
      case Arrive(q) =>
        var next := Acted(cfg, n, act).queue;
        assert forall i :: 0 <= i < |n.queue| ==> next[i] == n.queue[i] && next[..i] == n.queue[..i];
        assert |n.queue| < cfg.capacity ==> next[|n.queue|] == q && next[..|n.queue|] == n.queue;
      case History(m) =>
        HistoryCovers(cfg, n, m);
      case ClearCache =>
        NothingCovers();
        NothingCoversQueue(n.queue);
    }
  }

  lemma HistoryCovers(cfg: Config, n: Node, m: DataMessage)
    requires CacheSound(n.kept) && QueueCovered(n.kept, n.queue)
    ensures var after := Acted(cfg, n, History(m)); CacheSound(after.kept) && QueueCovered(after.kept, after.queue)
  {
    hide CacheSound, Covers, StoredBy, Added;
    var after := Acted(cfg, n, History(m));
    StoringCovers(n.kept, cfg.keepsHistory, m, m);
    assert forall i :: 0 <= i < |n.queue| ==> after.queue[i] == n.queue[i] && after.queue[..i] == n.queue[..i];
    forall i | 0 <= i < |after.queue| && PublishesData(after.queue[i])
      ensures Covers(after.kept, after.queue[i].message) || StoredBy(after.queue[..i], after.queue[i].message)
    {
      StoringCovers(n.kept, cfg.keepsHistory, m, after.queue[i].message);
    }
  }

  lemma NothingCovers()
    ensures CacheSound(NOTHING) && forall m: DataMessage :: !Covers(NOTHING, m)
  {
  }

  lemma NothingCoversQueue(queue: seq<Envelope>)
    ensures QueueCovered(NOTHING, queue) <==>
              forall i :: 0 <= i < |queue| && PublishesData(queue[i]) ==> StoredBy(queue[..i], queue[i].message)
  {
    hide StoredBy;
    NothingCovers();
  }

  /** An act from a covered state leaves a drain that delivers only what the cache holds exactly when it is allowed:
      this is when clearing the cache is harmless, and when a foreign publication is. */
  lemma ActIsHarmlessIff(cfg: Config, n: Node, act: Act)
    requires Covered(n) && |Acted(cfg, n, act).queue| <= cfg.capacity
    ensures DeliveriesCovered(Drained(cfg, Acted(cfg, n, act)).deliveries) <==> Allowed(cfg, n, act)
  {
    hide CacheSound, QueueCovered, DeliveriesCovered, Acted, Allowed;
    ActKeepsCoveredIff(cfg, n, act);
    ActKeepsSound(cfg, n, act);
    DrainCoversIff(cfg, Acted(cfg, n, act));
  }

  lemma ActKeepsSound(cfg: Config, n: Node, act: Act)
    requires CacheSound(n.kept)
    ensures CacheSound(Acted(cfg, n, act).kept)
  {
    hide CacheSound, Handled, HandledLast, Added;
    if (act.HandleOne? || act.HandleLast?) && n.queue != [] {
      TurnKeepsCoveredIff(cfg, n);
    } else if act.History? {
      StoringCovers(n.kept, cfg.keepsHistory, act.bar, act.bar);
    }
    NothingCovers();
  }

  /** Each step of the run is allowed where it is taken. */
  ghost predicate AllowedRun(n: Node, steps: seq<RunStep>) {
    forall i :: 0 <= i < |steps| ==> Allowed(steps[i].cfg, ActedAll(n, steps[..i]), steps[i].act)
  }

  /** Over every such run, with subscriptions, connections and instruments changing on the way, whenever market data is
      delivered the cache already holds its key's market data of its time or later, whatever was queued in between and
      whether or not the message itself was stale. */
  lemma {:induction false} WriteBeforePublish(n: Node, steps: seq<RunStep>)
    requires Covered(n) && AllowedRun(n, steps)
    ensures Covered(ActedAll(n, steps))
  {
    hide Covered, Acted, Allowed;
    if steps != [] {
      var last := |steps| - 1;
      assert forall i :: 0 <= i < last ==> steps[..last][..i] == steps[..i] && steps[..last][i] == steps[i];
      WriteBeforePublish(n, steps[..last]);
      ActKeepsCoveredIff(steps[last].cfg, ActedAll(n, steps[..last]), steps[last].act);
    }
  }

  /** Clearing the cache while market data is next in the queue delivers data that the cache does not hold. */
  lemma ClearBreaksIt(cfg: Config, n: Node)
    requires n.queue != [] && PublishesData(n.queue[0])
    ensures Acted(cfg, Acted(cfg, n, ClearCache), HandleOne).deliveries ==
              n.deliveries + [Delivery(n.queue[0].message, Handlers(cfg.subscriptions, n.queue[0].target), None)]
  {
  }

  // Delivery order.

  predicate DataOf(m: Message, k: Key) {
    m.MarketData? && m.key == k
  }

  /** The market data of a key delivered so far. */
  function DeliveredFor(deliveries: seq<Delivery>, k: Key): seq<Message> {
    if deliveries == [] then []
    else
      var last := |deliveries| - 1;
      DeliveredFor(deliveries[..last], k)
        + (if DataOf(deliveries[last].message, k) then [deliveries[last].message] else [])
  }

  /** Queued for publication, or for the data engine. */
  datatype Stage = Published | Waiting

  predicate IsQueuedFor(q: Envelope, k: Key, stage: Stage) {
    (if stage.Published? then PublishesData(q) else StoresData(q)) && q.message.key == k
  }

  /** The market data of a key queued at this stage. */
  function QueuedFor(queue: seq<Envelope>, k: Key, stage: Stage): seq<Message> {
    if queue == [] then []
    else
      var last := |queue| - 1;
      QueuedFor(queue[..last], k, stage) + (if IsQueuedFor(queue[last], k, stage) then [queue[last].message] else [])
  }

  /** A key's market data in the order of its delivery, past and to come: what is published already goes first. */
  function Line(n: Node, k: Key): seq<Message> {
    DeliveredFor(n.deliveries, k) + QueuedFor(n.queue, k, Published) + QueuedFor(n.queue, k, Waiting)
  }

  lemma {:induction false} QueuedHead(queue: seq<Envelope>, k: Key, stage: Stage)
    requires queue != []
    ensures QueuedFor(queue, k, stage) == QueuedFor([queue[0]], k, stage) + QueuedFor(queue[1..], k, stage)
  {
    hide IsQueuedFor;
    var last := |queue| - 1;
    if last == 0 {
      assert queue == [queue[0]] && queue[1..] == [];
    } else {
      var tail := queue[1..];
      QueuedHead(queue[..last], k, stage);
      assert queue[..last][1..] == tail[..last - 1] && queue[..last][0] == queue[0] && tail[last - 1] == queue[last];
    }
  }

  lemma QueuedOne(q: Envelope, k: Key, stage: Stage)
    ensures QueuedFor([q], k, stage) == if IsQueuedFor(q, k, stage) then [q.message] else []
  {
    hide IsQueuedFor;
    assert [q][..0] == [];
  }

  lemma QueuedLast(queue: seq<Envelope>, q: Maybe<Envelope>, k: Key, stage: Stage)
    ensures QueuedFor(queue + Listed(q), k, stage) == QueuedFor(queue, k, stage) + QueuedFor(Listed(q), k, stage)
  {
    hide IsQueuedFor;
    if q.Some? {
      QueuedOne(q.value, k, stage);
      assert (queue + [q.value])[..|queue|] == queue;
    } else {
      assert queue + [] == queue;
    }
  }

  function Listed(q: Maybe<Envelope>): seq<Envelope> {
    if q.Some? then [q.value] else []
  }

  lemma DeliveredOfTurn(cfg: Config, n: Node, q: Envelope, k: Key)
    ensures DeliveredFor(Effects(cfg, n, q).deliveries, k) ==
      DeliveredFor(n.deliveries, k) + QueuedFor([q], k, Published)
  {
    hide Processes, Added, Executed, CommandDone, EventDone;
    QueuedOne(q, k, Published);
    var after := Effects(cfg, n, q).deliveries;
    if q.isPublish {
      assert after[..|n.deliveries|] == n.deliveries;
    }
  }

  /** What handling a message publishes for a key is what the message was waiting to have published. */
  lemma EmissionPublishes(cfg: Config, q: Envelope, k: Key)
    ensures QueuedFor(Listed(Emits(cfg, q)), k, Published) == QueuedFor([q], k, Waiting)
    ensures QueuedFor(Listed(Emits(cfg, q)), k, Waiting) == []
  {
    hide Emits, PublishesData, StoresData;
    QueuedOne(q, k, Waiting);
    EmittedData(cfg, q);
    if Emits(cfg, q).Some? {
      QueuedOne(Emits(cfg, q).value, k, Published);
      QueuedOne(Emits(cfg, q).value, k, Waiting);
    }
  }

  /** A turn of the drain leaves every key's line as it is. */
  lemma TurnKeepsLine(cfg: Config, n: Node, k: Key)
    requires n.queue != [] && |n.queue| <= cfg.capacity
    ensures Line(Handled(cfg, n), k) == Line(n, k)
  {
    hide Effects, Emits, DeliveredFor, QueuedFor, Handled, OfferedTo;
    var q, rest := n.queue[0], n.queue[1..];
    EffectsOnly(cfg, n);
    DeliveredOfTurn(cfg, n, q, k);
    HandlingFits(cfg, n);
    EmissionPublishes(cfg, q, k);
    QueuedHead(n.queue, k, Published);
    QueuedHead(n.queue, k, Waiting);
    QueuedLast(rest, Emits(cfg, q), k, Published);
    QueuedLast(rest, Emits(cfg, q), k, Waiting);
  }

  /** The drain of `run()` delivers each key's market data in line: what was published first, then what was waiting for
      the data engine, each in the order in which it was accepted, nothing lost and nothing twice. */
  lemma {:induction false} DrainDeliversInOrder(cfg: Config, n: Node, k: Key)
    requires |n.queue| <= cfg.capacity
    ensures DeliveredFor(Drained(cfg, n).deliveries, k) == Line(n, k)
    decreases Weight(n.queue)
  {
    hide Handled, DeliveredFor;
    if n.queue != [] {
      hide Line;
      HandlingFits(cfg, n);
      TurnKeepsLine(cfg, n, k);
      DrainDeliversInOrder(cfg, Handled(cfg, n), k);
    }
  }

  /** What an arrival or a historical bar offers to the queue. */
  function Put(act: Act): Envelope
    requires act.Arrive? || act.History?
  {
    if act.Arrive? then act.envelope else Queued(Topic(act.bar.key), act.bar, true)
  }

  /** What is sent to the data engine joins the end of its key's line; what is published past it, historical bars
      included, goes before all that is waiting for the data engine. */
  lemma ArrivalJoinsLine(cfg: Config, n: Node, act: Act, k: Key)
    requires act.Arrive? || act.History?
    ensures Line(Acted(cfg, n, act), k) ==
              if |n.queue| >= cfg.capacity then Line(n, k)
              else DeliveredFor(n.deliveries, k)
                   + QueuedFor(n.queue, k, Published) + QueuedFor([Put(act)], k, Published)
                   + QueuedFor(n.queue, k, Waiting) + QueuedFor([Put(act)], k, Waiting)
  {
    hide DeliveredFor, QueuedFor, Added;
    QueuedLast(n.queue, Some(Put(act)), k, Published);
    QueuedLast(n.queue, Some(Put(act)), k, Waiting);
  }

  /** A key's market data that the bus accepts with this act, for the data engine or for publication. */
  function Accepted(cfg: Config, n: Node, act: Act, k: Key): seq<Message> {
    if (act.Arrive? || act.History?) && |n.queue| < cfg.capacity
    then QueuedFor([Put(act)], k, Published) + QueuedFor([Put(act)], k, Waiting) else []
  }

  /** Nothing of the key waits for the data engine but messages equal to what is published past it, and the last pass of
      a stopped bus, whose handlers' messages are dropped, does not come to a message of the key. */
  ghost predicate JoinsEnd(cfg: Config, n: Node, act: Act, k: Key) {
    && (act.HandleLast? && n.queue != [] ==> !IsQueuedFor(n.queue[0], k, Waiting))
    && ((act.Arrive? || act.History?) && |n.queue| < cfg.capacity && IsQueuedFor(Put(act), k, Published) ==>
         AllEqual(QueuedFor(n.queue, k, Waiting), Put(act).message))
  }

  ghost predicate AllEqual(messages: seq<Message>, m: Message) {
    forall i :: 0 <= i < |messages| ==> messages[i] == m
  }

  lemma {:induction false} CommutesIff(m: Message, messages: seq<Message>)
    ensures [m] + messages == messages + [m] <==> AllEqual(messages, m)
  {
    if [m] + messages == messages + [m] {
      Rotated(m, messages);
    }
  }

  lemma {:induction false} Rotated(m: Message, messages: seq<Message>)
    requires [m] + messages == messages + [m]
    ensures AllEqual(messages, m)
  {
    if messages != [] {
      var tail := messages[1..];
      assert messages[0] == ([m] + messages)[0] == m;
      assert [m] + tail == messages == ([m] + messages)[1..] == (messages + [m])[1..] == tail + [m];
      Rotated(m, tail);
      assert messages == [m] + tail;
    }
  }

  lemma SameFront<T>(front: seq<T>, a: seq<T>, b: seq<T>)
    ensures front + a == front + b <==> a == b
  {
    if front + a == front + b {
      assert a == (front + a)[|front|..] && b == (front + b)[|front|..];
    }
  }

  lemma PassesIff(front: seq<Message>, m: Message, waiting: seq<Message>)
    ensures front + [m] + waiting == front + waiting + [m] <==> AllEqual(waiting, m)
  {
    hide AllEqual;
    assert front + [m] + waiting == front + ([m] + waiting) && front + waiting + [m] == front + (waiting + [m]);
    SameFront(front, [m] + waiting, waiting + [m]);
    CommutesIff(m, waiting);
  }

  /** An arrival or a bar keeps the order of acceptance exactly if it does not pass other data of its key. */
  lemma ArrivalKeepsOrderIff(cfg: Config, n: Node, act: Act, k: Key)
    requires act.Arrive? || act.History?
    ensures Line(Acted(cfg, n, act), k) == Line(n, k) + Accepted(cfg, n, act, k) <==> JoinsEnd(cfg, n, act, k)
  {
    hide Acted, DeliveredFor, QueuedFor, AllEqual, IsQueuedFor, Put;
    var q := Put(act);
    var front, waiting := DeliveredFor(n.deliveries, k)
      + QueuedFor(n.queue, k, Published), QueuedFor(n.queue, k, Waiting);
    ArrivalJoinsLine(cfg, n, act, k);
    QueuedOne(q, k, Published);
    QueuedOne(q, k, Waiting);
    NotBoth(q, k);
    if |n.queue| >= cfg.capacity {
      assert Line(n, k) + [] == Line(n, k);
    } else if IsQueuedFor(q, k, Published) {
      assert Line(Acted(cfg, n, act), k) == front + [q.message] + waiting + [] == front + [q.message] + waiting;
      assert Line(n, k) + ([q.message] + []) == front + waiting + [q.message];
      PassesIff(front, q.message, waiting);
    } else {
      assert front + [] + waiting == front + waiting;
    }
  }

  lemma NotBoth(q: Envelope, k: Key)
    ensures !(IsQueuedFor(q, k, Published) && IsQueuedFor(q, k, Waiting))
  {
  }

  /** The last pass of a stopped bus loses what it finds waiting for the data engine, and nothing else. */
  lemma LastTurnKeepsLineIff(cfg: Config, n: Node, k: Key)
    requires n.queue != []
    ensures Line(HandledLast(cfg, n), k) == Line(n, k) <==> !IsQueuedFor(n.queue[0], k, Waiting)
  {
    hide Effects, Emits, DeliveredFor, QueuedFor, HandledLast, Handled, OfferedTo, IsQueuedFor;
    var q, rest := n.queue[0], n.queue[1..];
    EffectsOnly(cfg, n);
    DeliveredOfTurn(cfg, n, q, k);
    QueuedHead(n.queue, k, Published);
    QueuedHead(n.queue, k, Waiting);
    QueuedOne(q, k, Waiting);
    assert |Line(n, k)| == |Line(HandledLast(cfg, n), k)| + |QueuedFor([q], k, Waiting)|;
  }

  /** Every act keeps the order in which the bus accepted a key's market data exactly if nothing of it is passed or
      lost. */
  lemma ActKeepsOrderIff(cfg: Config, n: Node, act: Act, k: Key)
    requires |n.queue| <= cfg.capacity
    ensures |Acted(cfg, n, act).queue| <= cfg.capacity
    ensures Line(Acted(cfg, n, act), k) == Line(n, k) + Accepted(cfg, n, act, k) <==> JoinsEnd(cfg, n, act, k)
  {
    ActFits(cfg, n, act);
    hide Line, Handled, HandledLast, Added, IsQueuedFor, AllEqual;
    assert Line(n, k) + [] == Line(n, k);
    match act {
      case HandleOne =>
        if n.queue != [] {
          TurnKeepsLine(cfg, n, k);
        }
      case HandleLast =>
        if n.queue != [] {
          LastTurnKeepsLineIff(cfg, n, k);
        }
      case ClearCache =>
        SameLine(n, Acted(cfg, n, act), k);
      case _ =>
        ArrivalKeepsOrderIff(cfg, n, act, k);
    }
  }

  lemma ActFits(cfg: Config, n: Node, act: Act)
    requires |n.queue| <= cfg.capacity
    ensures |Acted(cfg, n, act).queue| <= cfg.capacity
  {
    hide Handled, HandledLast, Added, Emits, Effects;
    if n.queue != [] {
      HandlingFits(cfg, n);
      EffectsOnly(cfg, n);
    }
  }

  lemma SameLine(n: Node, after: Node, k: Key)
    requires after.queue == n.queue && after.deliveries == n.deliveries
    ensures Line(after, k) == Line(n, k)
  {
  }

  predicate SameCapacity(steps: seq<RunStep>, capacity: nat) {
    forall i :: 0 <= i < |steps| ==> steps[i].cfg.capacity == capacity
  }

  /** No step of the run passes or loses market data of the key. */
  ghost predicate OrderlyRun(n: Node, steps: seq<RunStep>, k: Key) {
    forall i :: 0 <= i < |steps| ==> JoinsEnd(steps[i].cfg, ActedAll(n, steps[..i]), steps[i].act, k)
  }

  /** The market data of a key that the bus accepted, in that order. */
  ghost function AcceptedFor(n: Node, steps: seq<RunStep>, k: Key): seq<Message> {
    if steps == [] then []
    else
      var last := |steps| - 1;
      AcceptedFor(n, steps[..last], k) + Accepted(steps[last].cfg, ActedAll(n, steps[..last]), steps[last].act, k)
  }

  /** What is delivered of a key and what is still to come is what the bus accepted, in the order in which it did. */
  ghost predicate InOrder(n: Node, steps: seq<RunStep>, k: Key) {
    Line(ActedAll(n, steps), k) == Line(n, k) + AcceptedFor(n, steps, k)
  }

  ghost predicate InOrderThroughout(n: Node, steps: seq<RunStep>, k: Key) {
    forall j :: 0 <= j <= |steps| ==> InOrder(n, steps[..j], k)
  }

  lemma ThroughoutSnoc(n: Node, steps: seq<RunStep>, k: Key)
    requires steps != []
    ensures InOrderThroughout(n, steps, k) <==> InOrderThroughout(n, steps[..|steps| - 1], k) && InOrder(n, steps, k)
  {
    hide InOrder;
    var last := |steps| - 1;
    assert forall i :: 0 <= i <= last ==> steps[..last][..i] == steps[..i];
    assert steps[..|steps|] == steps;
  }

  lemma OrderlySnoc(n: Node, steps: seq<RunStep>, k: Key)
    requires steps != []
    ensures var last := |steps| - 1;
            OrderlyRun(n, steps, k) <==>
              && OrderlyRun(n, steps[..last], k)
              && JoinsEnd(steps[last].cfg, ActedAll(n, steps[..last]), steps[last].act, k)
  {
    hide JoinsEnd, ActedAll;
    var last := |steps| - 1;
    assert forall i :: 0 <= i < last ==> steps[..last][..i] == steps[..i] && steps[..last][i] == steps[i];
  }

  lemma InOrderSnoc(n: Node, steps: seq<RunStep>, k: Key)
    requires steps != [] && InOrder(n, steps[..|steps| - 1], k)
    ensures var before, s := ActedAll(n, steps[..|steps| - 1]), steps[|steps| - 1];
            InOrder(n, steps, k) <==>
              Line(Acted(s.cfg, before, s.act), k) == Line(before, k) + Accepted(s.cfg, before, s.act, k)
  {
    hide Acted, Line, Accepted;
  }

  /** Over every run, drains, live data, historical bars and other publications mixed, a key's market data comes to its
      subscribers in the order in which the bus accepted it, at every point of the run, exactly if no step passes or
      loses any. */
  lemma {:induction false} DeliveredInOrderIff(n: Node, steps: seq<RunStep>, capacity: nat, k: Key)
    requires |n.queue| <= capacity && SameCapacity(steps, capacity)
    ensures |ActedAll(n, steps).queue| <= capacity
    ensures InOrderThroughout(n, steps, k) <==> OrderlyRun(n, steps, k)
  {
    hide Acted, Line, OrderlyRun, Accepted, JoinsEnd, InOrderThroughout, InOrder;
    if steps == [] {
      NothingInOrder(n, k);
    } else {
      var last := |steps| - 1;
      var s := steps[last];
      DeliveredInOrderIff(n, steps[..last], capacity, k);
      ThroughoutSnoc(n, steps, k);
      OrderlySnoc(n, steps, k);
      ActKeepsOrderIff(s.cfg, ActedAll(n, steps[..last]), s.act, k);
      if InOrderThroughout(n, steps[..last], k) {
        ThroughoutAtEnd(n, steps[..last], k);
        InOrderSnoc(n, steps, k);
      }
    }
  }

  lemma NothingInOrder(n: Node, k: Key)
    ensures InOrderThroughout(n, [], k) && OrderlyRun(n, [], k)
  {
    hide Line;
    var none: seq<RunStep> := [];
    assert none[..0] == none;
    assert Line(n, k) + [] == Line(n, k);
  }

  lemma ThroughoutAtEnd(n: Node, steps: seq<RunStep>, k: Key)
    requires InOrderThroughout(n, steps, k)
    ensures InOrder(n, steps, k)
  {
    assert steps[..|steps|] == steps;
  }

  /** So on every such run what is delivered, published and waiting is what was accepted, in that order. */
  lemma DeliveredInOrder(n: Node, steps: seq<RunStep>, capacity: nat, k: Key)
    requires |n.queue| <= capacity && SameCapacity(steps, capacity) && OrderlyRun(n, steps, k)
    ensures |ActedAll(n, steps).queue| <= capacity
    ensures Line(ActedAll(n, steps), k) == Line(n, k) + AcceptedFor(n, steps, k)
  {
    hide Line, OrderlyRun, InOrderThroughout;
    DeliveredInOrderIff(n, steps, capacity, k);
    ThroughoutAtEnd(n, steps, k);
  }
}
