/** What a drain leaves in the engines, in terms of the messages that were queued for them. */
module Drains {
  import opened Basics
  import opened Channels
  import opened Messages
  import opened MessageBuses
  import opened Caches
  import opened Executions
  import opened DataEngines
  import opened Pipeline
  import opened Deliveries
  import Subscriptions

  predicate SentTo(q: Envelope, endpoint: string) {
    !q.isPublish && q.target == endpoint
  }

  /** The subscription command that the data engine gets with a message, if any. */
  function CommandIn(q: Envelope): seq<Command> {
    if SentTo(q, DATA_ENGINE_EXECUTE) && q.message.DataCommand? then [q.message.command] else []
  }

  function CommandsIn(queue: seq<Envelope>): seq<Command> {
    if queue == [] then [] else CommandsIn(queue[..|queue| - 1]) + CommandIn(queue[|queue| - 1])
  }

  function Executes(venueOf: map<string, string>, cmds: seq<Command>): seq<EngineStep> {
    if cmds == [] then [] else Executes(venueOf, cmds[..|cmds| - 1]) + [Execute(venueOf, cmds[|cmds| - 1])]
  }

  /** The market data that the cache gets with a message, if any. */
  function OfferIn(q: Envelope): seq<Offer<Message>> {
    if (SentTo(q, DATA_ENGINE_PROCESS) || SentTo(q, DATA_ENGINE_PROCESS_HISTORICAL)) && q.message.MarketData?
    then [OfferOf(q.message)] else []
  }

  function OffersIn(queue: seq<Envelope>): seq<Offer<Message>> {
    if queue == [] then [] else OffersIn(queue[..|queue| - 1]) + OfferIn(queue[|queue| - 1])
  }

  /** What the execution engine gets with a message, if any. */
  function DeskStepIn(connected: map<string, bool>, q: Envelope): seq<DeskStep> {
    if SentTo(q, EXEC_ENGINE_EXECUTE) then [CommandStep(connected, q.message)]
    else if SentTo(q, EXEC_ENGINE_PROCESS) then [EventStep(q.message)]
    else []
  }

  function DeskStepsIn(connected: map<string, bool>, handled: seq<Envelope>): seq<DeskStep> {
    if handled == [] then []
    else DeskStepsIn(connected, handled[..|handled| - 1]) + DeskStepIn(connected, handled[|handled| - 1])
  }

  // Runs in parts.

  lemma {:induction false} SteppedParts(e: Engine, a: seq<EngineStep>, b: seq<EngineStep>)
    ensures SteppedAll(e, a + b) == SteppedAll(SteppedAll(e, a), b)
  {
    hide Stepped;
    if b == [] {
      assert a + b == a;
    } else {
      var n := |b| - 1;
      SteppedParts(e, a, b[..n]);
      LastOfSum(a, b);
    }
  }

  lemma {:induction false} WorkedParts(d: Desk, a: seq<DeskStep>, b: seq<DeskStep>)
    ensures WorkedAll(d, a + b) == WorkedAll(WorkedAll(d, a), b)
  {
    hide Worked;
    if b == [] {
      assert a + b == a;
    } else {
      var n := |b| - 1;
      WorkedParts(d, a, b[..n]);
      LastOfSum(a, b);
    }
  }

  lemma {:induction false} AddedParts(v: View<Message>, keepsHistory: set<Kind>, a: seq<Offer<Message>>,
      b: seq<Offer<Message>>)
    ensures AddedAll(v, keepsHistory, a + b) == AddedAll(AddedAll(v, keepsHistory, a), keepsHistory, b)
  {
    hide Added;
    if b == [] {
      assert a + b == a;
    } else {
      var n := |b| - 1;
      AddedParts(v, keepsHistory, a, b[..n]);
      LastOfSum(a, b);
    }
  }

  lemma {:induction false} ExecutesParts(venueOf: map<string, string>, a: seq<Command>, b: seq<Command>)
    ensures Executes(venueOf, a + b) == Executes(venueOf, a) + Executes(venueOf, b)
  {
    if b == [] {
      assert a + b == a;
    } else {
      var n := |b| - 1;
      ExecutesParts(venueOf, a, b[..n]);
      LastOfSum(a, b);
      Reassociate(Executes(venueOf, a), Executes(venueOf, b[..n]), [Execute(venueOf, b[n])]);
    }
  }

  lemma {:induction false} CommandsInParts(a: seq<Envelope>, b: seq<Envelope>)
    ensures CommandsIn(a + b) == CommandsIn(a) + CommandsIn(b)
  {
    hide CommandIn;
    if b == [] {
      assert a + b == a;
    } else {
      var n := |b| - 1;
      CommandsInParts(a, b[..n]);
      LastOfSum(a, b);
      Reassociate(CommandsIn(a), CommandsIn(b[..n]), CommandIn(b[n]));
    }
  }

  lemma {:induction false} OffersInParts(a: seq<Envelope>, b: seq<Envelope>)
    ensures OffersIn(a + b) == OffersIn(a) + OffersIn(b)
  {
    hide OfferIn;
    if b == [] {
      assert a + b == a;
    } else {
      var n := |b| - 1;
      OffersInParts(a, b[..n]);
      LastOfSum(a, b);
      Reassociate(OffersIn(a), OffersIn(b[..n]), OfferIn(b[n]));
    }
  }

  lemma {:induction false} DeskStepsInParts(connected: map<string, bool>, a: seq<Envelope>, b: seq<Envelope>)
    ensures DeskStepsIn(connected, a + b) == DeskStepsIn(connected, a) + DeskStepsIn(connected, b)
  {
    hide DeskStepIn;
    if b == [] {
      assert a + b == a;
    } else {
      var n := |b| - 1;
      DeskStepsInParts(connected, a, b[..n]);
      LastOfSum(a, b);
      Reassociate(DeskStepsIn(connected, a), DeskStepsIn(connected, b[..n]), DeskStepIn(connected, b[n]));
    }
  }

  lemma InOne(q: Envelope, connected: map<string, bool>)
    ensures CommandsIn([q]) == CommandIn(q) && OffersIn([q]) == OfferIn(q)
    ensures DeskStepsIn(connected, [q]) == DeskStepIn(connected, q)
  {
    hide CommandIn, OfferIn, DeskStepIn;
    assert [q][..0] == [];
  }

  // One message.

  lemma ProcessesIffSent(q: Envelope)
    ensures Processes(q, DataExecute) <==> SentTo(q, DATA_ENGINE_EXECUTE)
    ensures Processes(q, DataProcess) <==> SentTo(q, DATA_ENGINE_PROCESS) || SentTo(q, DATA_ENGINE_PROCESS_HISTORICAL)
    ensures Processes(q, ExecExecute) <==> SentTo(q, EXEC_ENGINE_EXECUTE)
    ensures Processes(q, ExecProcess) <==> SentTo(q, EXEC_ENGINE_PROCESS)
    ensures SentTo(q, EXEC_ENGINE_EXECUTE) ==> !SentTo(q, EXEC_ENGINE_PROCESS)
  {
    EndpointHandlers();
  }

  lemma ExecutesOne(e: Engine, venueOf: map<string, string>, cmd: Command)
    ensures SteppedAll(e, Executes(venueOf, [cmd])) == Executed(e, venueOf, cmd)
  {
    hide Executed;
    assert [cmd][..0] == [];
    var one := [Execute(venueOf, cmd)];
    assert Executes(venueOf, [cmd]) == one && one[..0] == [];
  }

  /** The engines' states after one message. */
  lemma EffectsAre(cfg: Config, n: Node, q: Envelope)
    ensures var after := Effects(cfg, n, q);
            && after.engine == SteppedAll(n.engine, Executes(cfg.venueOf, CommandIn(q)))
            && after.kept == AddedAll(n.kept, cfg.keepsHistory, OfferIn(q))
            && after.desk == WorkedAll(n.desk, DeskStepIn(cfg.connected, q))
  {
    hide Processes, SentTo, Executed, Added, CommandDone, EventDone, HandlerOf;
    ProcessesIffSent(q);
    if CommandIn(q) != [] {
      ExecutesOne(n.engine, cfg.venueOf, q.message.command);
    }
    if OfferIn(q) != [] {
      assert [OfferOf(q.message)][..0] == [];
    }
    DeskOne(n.desk, cfg.connected, q.message);
  }

  lemma DeskOne(d: Desk, connected: map<string, bool>, m: Message)
    ensures WorkedAll(d, [CommandStep(connected, m)]) == CommandDone(d, connected, m)
    ensures WorkedAll(d, [EventStep(m)]) == EventDone(d, m)
  {
    hide CommandDone, EventDone;
    var a, b := [CommandStep(connected, m)], [EventStep(m)];
    assert a[..0] == [] && b[..0] == [];
  }

  /** No handler sends commands or market data to the data engine. */
  lemma EmitsNoInput(cfg: Config, q: Envelope)
    ensures Emits(cfg, q).Some? ==> CommandIn(Emits(cfg, q).value) == [] && OfferIn(Emits(cfg, q).value) == []
  {
    EndpointHandlers();
    hide HandlerOf;
  }

  lemma QueueAfterTurn(cfg: Config, rest: seq<Envelope>, q: Envelope)
    ensures var next := OfferedTo(cfg, rest, Emits(cfg, q));
            CommandsIn(next) == CommandsIn(rest) && OffersIn(next) == OffersIn(rest)
  {
    hide Emits, CommandIn, OfferIn;
    EmitsNoInput(cfg, q);
    var emitted := Emits(cfg, q);
    if emitted.Some? {
      CommandsInParts(rest, [emitted.value]);
      OffersInParts(rest, [emitted.value]);
      InOne(emitted.value, map[]);
    }
  }

  // Whole drains.

  /** The engine has executed these commands and the cache has been offered this market data, in this order. */
  ghost predicate Fed(cfg: Config, before: Node, after: Node, cmds: seq<Command>, offers: seq<Offer<Message>>) {
    && after.engine == SteppedAll(before.engine, Executes(cfg.venueOf, cmds))
    && after.kept == AddedAll(before.kept, cfg.keepsHistory, offers)
  }

  lemma TurnFeeds(cfg: Config, n: Node)
    requires n.queue != []
    ensures Fed(cfg, n, Handled(cfg, n), CommandIn(n.queue[0]), OfferIn(n.queue[0]))
    ensures Fed(cfg, n, HandledLast(cfg, n), CommandIn(n.queue[0]), OfferIn(n.queue[0]))
    ensures CommandsIn(n.queue) == CommandIn(n.queue[0]) + CommandsIn(Handled(cfg, n).queue)
    ensures CommandsIn(n.queue) == CommandIn(n.queue[0]) + CommandsIn(HandledLast(cfg, n).queue)
    ensures OffersIn(n.queue) == OfferIn(n.queue[0]) + OffersIn(Handled(cfg, n).queue)
    ensures OffersIn(n.queue) == OfferIn(n.queue[0]) + OffersIn(HandledLast(cfg, n).queue)
  {
    hide Effects, Emits, CommandIn, OfferIn, Handled, HandledLast, OfferedTo, DeskStepIn, CommandsIn, OffersIn;
    var q, rest := n.queue[0], n.queue[1..];
    EffectsOnly(cfg, n);
    EffectsAre(cfg, n, q);
    QueueAfterTurn(cfg, rest, q);
    assert n.queue == [q] + rest;
    CommandsInParts([q], rest);
    OffersInParts([q], rest);
    InOne(q, map[]);
  }

  lemma FedParts(cfg: Config, n: Node, mid: Node, end: Node, cmds: seq<Command>, moreCmds: seq<Command>,
      offers: seq<Offer<Message>>, moreOffers: seq<Offer<Message>>)
    requires Fed(cfg, n, mid, cmds, offers) && Fed(cfg, mid, end, moreCmds, moreOffers)
    ensures Fed(cfg, n, end, cmds + moreCmds, offers + moreOffers)
  {
    ExecutesParts(cfg.venueOf, cmds, moreCmds);
    SteppedParts(n.engine, Executes(cfg.venueOf, cmds), Executes(cfg.venueOf, moreCmds));
    AddedParts(n.kept, cfg.keepsHistory, offers, moreOffers);
  }

  /** A drain executes exactly the subscription commands that were queued, and offers the cache exactly the market data
      that was, each in queue order. */
  lemma {:induction false} DrainFeeds(cfg: Config, n: Node)
    requires |n.queue| <= cfg.capacity
    ensures Fed(cfg, n, Drained(cfg, n), CommandsIn(n.queue), OffersIn(n.queue))
    decreases Weight(n.queue)
  {
    hide Handled, CommandIn, OfferIn;
    if n.queue != [] {
      hide Fed, CommandsIn, OffersIn;
      HandlingFits(cfg, n);
      TurnFeeds(cfg, n);
      var next := Handled(cfg, n);
      DrainFeeds(cfg, next);
      FedParts(cfg, n, next, Drained(cfg, next), CommandIn(n.queue[0]), CommandsIn(next.queue), OfferIn(n.queue[0]),
        OffersIn(next.queue));
    }
  }

  lemma {:induction false} FlushFeeds(cfg: Config, n: Node)
    ensures Fed(cfg, n, Flushed(cfg, n), CommandsIn(n.queue), OffersIn(n.queue))
    decreases |n.queue|
  {
    hide Effects, CommandIn, OfferIn;
    if n.queue != [] {
      hide Fed, CommandsIn, OffersIn;
      TurnFeeds(cfg, n);
      var next := HandledLast(cfg, n);
      FlushFeeds(cfg, next);
      FedParts(cfg, n, next, Flushed(cfg, next), CommandIn(n.queue[0]), CommandsIn(next.queue), OfferIn(n.queue[0]),
        OffersIn(next.queue));
    }
  }

  /** The messages published, in the order in which they were handled. */
  function PublishedIn(handled: seq<Envelope>): seq<Envelope> {
    if handled == [] then []
    else
      var last := |handled| - 1;
      PublishedIn(handled[..last]) + (if handled[last].isPublish then [handled[last]] else [])
  }

  /** The delivery of a published message calls exactly the handlers registered for its topic, under their tokens. */
  ghost predicate CallsSubscribers(r: Registry<Handler>, q: Envelope, d: Delivery) {
    && d.message == q.message
    && (forall token :: token in d.calls <==> token in r.topicOf && r.topicOf[token] == q.target)
    && (forall token :: token in d.calls ==> RegisteredAs(r, token, q.target, d.calls[token]))
  }

  /** What the execution engine and the subscribers got while these messages were handled. */
  ghost predicate Served(cfg: Config, before: Node, after: Node, handled: seq<Envelope>) {
    && after.handled == before.handled + handled
    && after.desk == WorkedAll(before.desk, DeskStepsIn(cfg.connected, handled))
    && |after.deliveries| == |before.deliveries| + |PublishedIn(handled)| && before.deliveries <= after.deliveries
    && forall i :: 0 <= i < |PublishedIn(handled)| ==>
         CallsSubscribers(cfg.subscriptions, PublishedIn(handled)[i], after.deliveries[|before.deliveries| + i])
  }

  lemma {:induction false} PublishedInParts(a: seq<Envelope>, b: seq<Envelope>)
    ensures PublishedIn(a + b) == PublishedIn(a) + PublishedIn(b)
  {
    if b == [] {
      assert a + b == a;
    } else {
      var n := |b| - 1;
      PublishedInParts(a, b[..n]);
      LastOfSum(a, b);
      Reassociate(PublishedIn(a), PublishedIn(b[..n]), if b[n].isPublish then [b[n]] else []);
    }
  }

  lemma EffectsCall(cfg: Config, n: Node, q: Envelope)
    requires Consistent(cfg.subscriptions)
    ensures var after := Effects(cfg, n, q).deliveries;
            && |after| == |n.deliveries| + |PublishedIn([q])| && n.deliveries <= after
            && (q.isPublish ==>
                 PublishedIn([q]) == [q] && CallsSubscribers(cfg.subscriptions, q, after[|n.deliveries|]))
            && (!q.isPublish ==> PublishedIn([q]) == [])
  {
    hide Processes, Added, Executed, CommandDone, EventDone;
    assert [q][..0] == [];
  }

  lemma TurnServes(cfg: Config, n: Node)
    requires n.queue != [] && Consistent(cfg.subscriptions)
    ensures Served(cfg, n, Handled(cfg, n), [n.queue[0]]) && Served(cfg, n, HandledLast(cfg, n), [n.queue[0]])
  {
    hide Effects, Emits, CallsSubscribers, DeskStepIn, CommandIn, OfferIn, Handled, HandledLast, OfferedTo, Consistent;
    var q := n.queue[0];
    EffectsOnly(cfg, n);
    EffectsAre(cfg, n, q);
    EffectsCall(cfg, n, q);
    InOne(q, cfg.connected);
  }

  lemma ServedParts(cfg: Config, n: Node, mid: Node, end: Node, a: seq<Envelope>, b: seq<Envelope>)
    requires Served(cfg, n, mid, a) && Served(cfg, mid, end, b)
    ensures Served(cfg, n, end, a + b)
  {
    hide CallsSubscribers, WorkedAll, DeskStepsIn, PublishedIn;
    DeskStepsInParts(cfg.connected, a, b);
    WorkedParts(n.desk, DeskStepsIn(cfg.connected, a), DeskStepsIn(cfg.connected, b));
    PublishedInParts(a, b);
    var pa, pb := PublishedIn(a), PublishedIn(b);
    forall i | 0 <= i < |pa + pb|
      ensures CallsSubscribers(cfg.subscriptions, (pa + pb)[i], end.deliveries[|n.deliveries| + i])
    {
      if i < |pa| {
        assert end.deliveries[|n.deliveries| + i] == mid.deliveries[|n.deliveries| + i];
      } else {
        assert CallsSubscribers(cfg.subscriptions, pb[i - |pa|], end.deliveries[|mid.deliveries| + (i - |pa|)]);
      }
    }
  }

  lemma ServedNothing(cfg: Config, n: Node)
    ensures Served(cfg, n, n, [])
  {
  }

  /** While it drains, the execution engine gets exactly the commands and events that are handled, in that order, and
      each publication calls exactly the handlers registered for its topic. */
  lemma {:induction false} DrainServes(cfg: Config, n: Node)
    requires |n.queue| <= cfg.capacity && Consistent(cfg.subscriptions)
    ensures n.handled <= Drained(cfg, n).handled
    ensures Served(cfg, n, Drained(cfg, n), Drained(cfg, n).handled[|n.handled|..])
    decreases Weight(n.queue)
  {
    hide Handled, Served, Consistent;
    if n.queue == [] {
      ServedNothing(cfg, n);
    } else {
      HandlingFits(cfg, n);
      TurnServes(cfg, n);
      var next := Handled(cfg, n);
      DrainServes(cfg, next);
      var end := Drained(cfg, next);
      TurnHandles(cfg, n);
      ServedParts(cfg, n, next, end, [n.queue[0]], end.handled[|next.handled|..]);
      assert end.handled[|n.handled|..] == [n.queue[0]] + end.handled[|next.handled|..];
    }
  }

  lemma TurnHandles(cfg: Config, n: Node)
    requires n.queue != []
    ensures Handled(cfg, n).handled == n.handled + [n.queue[0]] == HandledLast(cfg, n).handled
  {
    hide Effects;
  }

  lemma {:induction false} FlushServes(cfg: Config, n: Node)
    requires Consistent(cfg.subscriptions)
    ensures Served(cfg, n, Flushed(cfg, n), n.queue)
    decreases |n.queue|
  {
    hide Effects, Served, Consistent;
    if n.queue == [] {
      ServedNothing(cfg, n);
    } else {
      TurnServes(cfg, n);
      var next := HandledLast(cfg, n);
      FlushServes(cfg, next);
      ServedParts(cfg, n, next, Flushed(cfg, next), [n.queue[0]], next.queue);
      assert n.queue == [n.queue[0]] + next.queue;
    }
  }

  // Whole runs.

  /** What a step has the data engine do. */
  function EngineDoes(n: Node, act: Act): seq<Command> {
    if (act.HandleOne? || act.HandleLast?) && n.queue != [] then CommandIn(n.queue[0]) else []
  }

  function DeskDoes(cfg: Config, n: Node, act: Act): seq<DeskStep> {
    if (act.HandleOne? || act.HandleLast?) && n.queue != [] then DeskStepIn(cfg.connected, n.queue[0])
    else if act.ClearCache? then [ClearStep]
    else []
  }

  /** The commands that a run has executed, with the instruments cached at the time. */
  ghost function EngineRun(n: Node, steps: seq<RunStep>): seq<EngineStep> {
    if steps == [] then []
    else
      var last := |steps| - 1;
      var s := steps[last];
      EngineRun(n, steps[..last]) + Executes(s.cfg.venueOf, EngineDoes(ActedAll(n, steps[..last]), s.act))
  }

  ghost function DeskRun(n: Node, steps: seq<RunStep>): seq<DeskStep> {
    if steps == [] then []
    else
      var last := |steps| - 1;
      DeskRun(n, steps[..last]) + DeskDoes(steps[last].cfg, ActedAll(n, steps[..last]), steps[last].act)
  }

  ghost function ExecutedIn(n: Node, steps: seq<RunStep>): seq<Command> {
    if steps == [] then []
    else
      var last := |steps| - 1;
      ExecutedIn(n, steps[..last]) + EngineDoes(ActedAll(n, steps[..last]), steps[last].act)
  }

  /** The commands that the bus has accepted on the way. */
  ghost function CommandsAccepted(n: Node, steps: seq<RunStep>): seq<Command> {
    if steps == [] then []
    else
      var last := |steps| - 1;
      var s := steps[last];
      CommandsAccepted(n, steps[..last])
      + (if s.act.Arrive? && |ActedAll(n, steps[..last]).queue| < s.cfg.capacity then CommandIn(s.act.envelope) else [])
  }

  lemma ActDoes(cfg: Config, n: Node, act: Act)
    ensures Acted(cfg, n, act).engine == SteppedAll(n.engine, Executes(cfg.venueOf, EngineDoes(n, act)))
    ensures Acted(cfg, n, act).desk == WorkedAll(n.desk, DeskDoes(cfg, n, act))
    ensures EngineDoes(n, act) + CommandsIn(Acted(cfg, n, act).queue) ==
              CommandsIn(n.queue)
              + (if act.Arrive? && |n.queue| < cfg.capacity then CommandIn(act.envelope) else [])
  {
    hide Effects, Emits, CommandIn, DeskStepIn, Handled, HandledLast, Added, Topic;
    match act {
      case Arrive(q) =>
        CommandsInParts(n.queue, [q]);
        InOne(q, cfg.connected);
      case History(m) =>
        var q := Put(act);
        CommandsInParts(n.queue, [q]);
        InOne(q, cfg.connected);
        NoCommandPublished(q);
      case ClearCache =>
        ClearOne(n.desk);
      case _ =>
        if n.queue != [] {
          TurnFeeds(cfg, n);
          EffectsOnly(cfg, n);
          EffectsAre(cfg, n, n.queue[0]);
        }
    }
  }

  lemma NoCommandPublished(q: Envelope)
    ensures q.isPublish ==> CommandIn(q) == []
  {
  }

  lemma ClearOne(d: Desk)
    ensures WorkedAll(d, [ClearStep]) == Worked(d, ClearStep)
  {
    hide Worked;
    var one := [ClearStep];
    assert one[..0] == [];
  }

  /** Over every run, with arrivals, drains and clears mixed and settings changing, the data engine has executed and the
      execution engine has worked off exactly the messages handled for them, in order. */
  lemma {:induction false} RunDoes(n: Node, steps: seq<RunStep>)
    ensures ActedAll(n, steps).engine == SteppedAll(n.engine, EngineRun(n, steps))
    ensures ActedAll(n, steps).desk == WorkedAll(n.desk, DeskRun(n, steps))
  {
    hide Acted, EngineDoes, DeskDoes, Executes;
    if steps != [] {
      var last := |steps| - 1;
      var s, before := steps[last], ActedAll(n, steps[..last]);
      RunDoes(n, steps[..last]);
      ActDoes(s.cfg, before, s.act);
      SteppedParts(n.engine, EngineRun(n, steps[..last]), Executes(s.cfg.venueOf, EngineDoes(before, s.act)));
      WorkedParts(n.desk, DeskRun(n, steps[..last]), DeskDoes(s.cfg, before, s.act));
    }
  }

  /** And every subscription command that the bus accepted is executed once, in the order of acceptance, or still
      queued. */
  lemma {:induction false} CommandsAreExecuted(n: Node, steps: seq<RunStep>)
    ensures ExecutedIn(n, steps) + CommandsIn(ActedAll(n, steps).queue) ==
      CommandsIn(n.queue) + CommandsAccepted(n, steps)
  {
    hide Acted, EngineDoes, CommandIn, CommandsIn;
    if steps != [] {
      var last := |steps| - 1;
      CommandsAreExecuted(n, steps[..last]);
      var s, before := steps[last], ActedAll(n, steps[..last]);
      ActDoes(s.cfg, before, s.act);
      Carry(ExecutedIn(n, steps[..last]), CommandsIn(before.queue), CommandsIn(n.queue),
        CommandsAccepted(n, steps[..last]),
        EngineDoes(before, s.act), CommandsIn(ActedAll(n, steps).queue),
        if s.act.Arrive? && |before.queue| < s.cfg.capacity then CommandIn(s.act.envelope) else []);
    } else {
      assert [] + CommandsIn(n.queue) == CommandsIn(n.queue) + [];
    }
  }

  lemma Carry<T>(done: seq<T>, left: seq<T>, first: seq<T>, came: seq<T>, does: seq<T>, next: seq<T>, comes: seq<T>)
    requires done + left == first + came && does + next == left + comes
    ensures (done + does) + next == first + (came + comes)
  {
    assert (done + does) + next == done + (left + comes) == (done + left) + comes == (first + came) + comes;
  }

  // The pieces together.

  /** With the bus as the subscription protocol keeps it, the delivery of a message published for a key calls each actor
      once for each of its holds of that key, and besides them only handlers of other components. */
  lemma DeliveryReachesHolders(r: Registry<Handler>, tokens: map<Subscriptions.Hold, nat>, others: set<nat>,
      q: Envelope,
      d: Delivery, k: Key)
    requires Subscriptions.TokensMatch(r, tokens, others) && CallsSubscribers(r, q, d) && q.target == Topic(k)
    ensures forall h :: h in tokens && KeyOf(h.1) == k ==> tokens[h] in d.calls && d.calls[tokens[h]] == Listener(h.0)
    ensures forall token :: token in d.calls && token !in others ==> Subscriptions.HasToken(tokens, k, token)
    ensures forall g, h :: g in tokens && h in tokens && tokens[g] == tokens[h] ==> g == h
  {
    Subscriptions.MatchDelivers(r, tokens, others, k);
  }

  // The node and the subscription protocol: a drain is a clean run of the protocol's steps.

  /** The node's engine and queue are those of the protocol. */
  ghost predicate Mirrors(cfg: Config, n: Node, s: Subscriptions.System) {
    && s.running && s.capacity == cfg.capacity && s.venueOf == cfg.venueOf && s.engine == n.engine
    && |s.queue| == |n.queue| && forall i :: 0 <= i < |n.queue| ==> s.queue[i].queued == n.queue[i]
  }

  /** A turn of the drain is the handling of one entry, followed by the sending of what its handler emits. */
  function TurnSteps(cfg: Config, q: Envelope): seq<Subscriptions.Step> {
    [Subscriptions.HandleOne] + if Emits(cfg, q).Some? then [Subscriptions.OthersSend(Emits(cfg, q).value)] else []
  }

  lemma CommandIsEntry(e: Subscriptions.Entry, q: Envelope)
    requires e.queued == q
    ensures Subscriptions.IsCommand(e) <==> CommandIn(q) != []
    ensures Subscriptions.IsCommand(e) ==> CommandIn(q) == [Subscriptions.CommandOf(e)]
  {
  }

  lemma HandleOneIs(s: Subscriptions.System)
    requires s.queue != []
    ensures var t, e := Subscriptions.Next(s, Subscriptions.HandleOne), s.queue[0];
            && t.queue == s.queue[1..] && t.running == s.running && t.capacity == s.capacity && t.venueOf == s.venueOf
            && t.engine == if Subscriptions.IsCommand(e) then Executed(s.engine, s.venueOf, Subscriptions.CommandOf(e))
                           else s.engine
  {
    hide Executed;
  }

  lemma SendIs(s: Subscriptions.System, q: Envelope)
    requires s.running && |s.queue| < s.capacity
    ensures var t := Subscriptions.Next(s, Subscriptions.OthersSend(q));
            && t.queue == s.queue + [Subscriptions.Entry(q, 0)]
            && t.running == s.running && t.capacity == s.capacity && t.venueOf == s.venueOf && t.engine == s.engine
  {
  }

  /** The engine after a turn. */
  lemma TurnExecutes(cfg: Config, n: Node)
    requires n.queue != [] && |n.queue| <= cfg.capacity
    ensures var q := n.queue[0];
            && Handled(cfg, n).queue == n.queue[1..] + Listed(Emits(cfg, q))
            && Handled(cfg, n).engine ==
                 if CommandIn(q) == [] then n.engine else Executed(n.engine, cfg.venueOf, CommandIn(q)[0])
  {
    hide Effects, Emits, Executed, CommandIn, Handled, OfferedTo, OfferIn, DeskStepIn;
    var q := n.queue[0];
    EffectsOnly(cfg, n);
    HandlingFits(cfg, n);
    EffectsAre(cfg, n, q);
    CommandInOne(q);
    if CommandIn(q) != [] {
      ExecutesOne(n.engine, cfg.venueOf, CommandIn(q)[0]);
    }
  }

  lemma CommandInOne(q: Envelope)
    ensures CommandIn(q) == [] || CommandIn(q) == [CommandIn(q)[0]]
  {
  }

  lemma TurnIsSteps(cfg: Config, n: Node, s: Subscriptions.System)
    requires Mirrors(cfg, n, s) && n.queue != [] && |n.queue| <= cfg.capacity
    ensures var handled := Subscriptions.Next(s, Subscriptions.HandleOne);
            if Emits(cfg, n.queue[0]).Some? then
              var send := Subscriptions.OthersSend(Emits(cfg, n.queue[0]).value);
              Subscriptions.Clean(handled, send) && Mirrors(cfg, Handled(cfg, n), Subscriptions.Next(handled, send))
            else Mirrors(cfg, Handled(cfg, n), handled)
  {
    hide Emits, Executed, CommandIn, OfferIn, Handled, Subscriptions.Next, Subscriptions.IsCommand;
    var q, handled := n.queue[0], Subscriptions.Next(s, Subscriptions.HandleOne);
    assert s.queue[0].queued == q;
    TurnExecutes(cfg, n);
    CommandIsEntry(s.queue[0], q);
    HandleOneIs(s);
    if Emits(cfg, q).Some? {
      EmitsNoInput(cfg, q);
      CommandIsEntry(Subscriptions.Entry(Emits(cfg, q).value, 0), Emits(cfg, q).value);
      SendIs(handled, Emits(cfg, q).value);
    }
  }

  lemma {:induction false} NextParts(s: Subscriptions.System, a: seq<Subscriptions.Step>, b: seq<Subscriptions.Step>)
    ensures Subscriptions.NextAll(s, a + b) == Subscriptions.NextAll(Subscriptions.NextAll(s, a), b)
  {
    hide Subscriptions.Next;
    if b == [] {
      assert a + b == a;
    } else {
      var n := |b| - 1;
      NextParts(s, a, b[..n]);
      LastOfSum(a, b);
    }
  }

  lemma CleanSnoc(s: Subscriptions.System, steps: seq<Subscriptions.Step>)
    requires steps != []
    ensures var n := |steps| - 1;
            Subscriptions.CleanRun(s, steps) <==>
              Subscriptions.CleanRun(s, steps[..n])
                && Subscriptions.Clean(Subscriptions.NextAll(s, steps[..n]), steps[n])
  {
    hide Subscriptions.Clean, Subscriptions.NextAll;
    var n := |steps| - 1;
    assert forall i :: 0 <= i < n ==> steps[..n][..i] == steps[..i] && steps[..n][i] == steps[i];
  }

  lemma {:induction false} CleanParts(s: Subscriptions.System, a: seq<Subscriptions.Step>, b: seq<Subscriptions.Step>)
    requires Subscriptions.CleanRun(s, a) && Subscriptions.CleanRun(Subscriptions.NextAll(s, a), b)
    ensures Subscriptions.CleanRun(s, a + b)
  {
    hide Subscriptions.Clean, Subscriptions.NextAll, Subscriptions.CleanRun;
    if b == [] {
      assert a + b == a;
    } else {
      var n := |b| - 1;
      CleanSnoc(Subscriptions.NextAll(s, a), b);
      CleanParts(s, a, b[..n]);
      NextParts(s, a, b[..n]);
      LastOfSum(a, b);
      CleanSnoc(s, a + b);
    }
  }

  lemma TurnIsCleanRun(cfg: Config, n: Node, s: Subscriptions.System)
    requires Mirrors(cfg, n, s) && n.queue != [] && |n.queue| <= cfg.capacity
    ensures var steps := TurnSteps(cfg, n.queue[0]);
            Subscriptions.CleanRun(s, steps) && Mirrors(cfg, Handled(cfg, n), Subscriptions.NextAll(s, steps))
  {
    hide Emits, Handled, Subscriptions.Next, Mirrors;
    TurnIsSteps(cfg, n, s);
    var steps := TurnSteps(cfg, n.queue[0]);
    var one := [Subscriptions.HandleOne];
    assert one[..0] == [] && steps[..0] == [] && steps[..1] == one;
    assert Subscriptions.NextAll(s, one) == Subscriptions.Next(s, Subscriptions.HandleOne);
  }

  /** So a drain of the node is a clean run of the protocol, and what holds on all of these holds of it. */
  lemma {:induction false} DrainIsCleanRun(cfg: Config, n: Node,
      s: Subscriptions.System) returns (steps: seq<Subscriptions.Step>)
    requires Mirrors(cfg, n, s) && |n.queue| <= cfg.capacity
    ensures Subscriptions.CleanRun(s, steps) && Mirrors(cfg, Drained(cfg, n), Subscriptions.NextAll(s, steps))
    decreases Weight(n.queue)
  {
    hide Mirrors, Handled, Subscriptions.Next, Subscriptions.Clean, TurnSteps;
    if n.queue == [] {
      steps := [];
    } else {
      HandlingFits(cfg, n);
      TurnIsCleanRun(cfg, n, s);
      var first := TurnSteps(cfg, n.queue[0]);
      var rest := DrainIsCleanRun(cfg, Handled(cfg, n), Subscriptions.NextAll(s, first));
      NextParts(s, first, rest);
      CleanParts(s, first, rest);
      steps := first + rest;
    }
  }
}
