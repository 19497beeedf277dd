/** The actor side of the subscription protocol. */
module Actors {
  import opened Channels
  import opened DataEngines
  import opened MessageBuses
  import opened Messages

  class Actor {
    const actorId: nat
    const bus: MessageBus<Message, Handler>
    var subscriptions: set<Channel>
    var tokens: map<Channel, nat>

    /** The actor has one live bus token, under its own name, for each channel it holds. */
    ghost predicate Valid()
      reads this, bus
    {
      && bus.Valid() && tokens.Keys == subscriptions
      && (forall c :: c in tokens ==> RegisteredAs(bus.Subscriptions(), tokens[c], TopicOf(c), Listener(actorId)))
      && (forall c, d :: c in tokens && d in tokens && tokens[c] == tokens[d] ==> c == d)
    }

    constructor (actorId: nat, bus: MessageBus<Message, Handler>)
      requires bus.Valid()
      ensures Valid() && this.actorId == actorId && this.bus == bus && subscriptions == {}
    {
      this.actorId, this.bus, subscriptions, tokens := actorId, bus, {}, map[];
    }

    /** `subscribe_quotes`, `subscribe_trades`, `subscribe_bars`, `subscribe_order_book` */
    method Subscribe(c: Channel, depth: int)
      requires Valid()
      modifies this, bus`subscribers, bus`tokenToTopic, bus`nextToken, bus`queue, bus`accepted
      ensures Valid()
      ensures c.id == "" || (c.Bar? && c.spec == "") || (c.Book? && depth <= 0) <==> !Admissible(c, depth)
      ensures if !Admissible(c, depth) || c in old(subscriptions)
              then unchanged(this, bus)
              else && subscriptions == old(subscriptions) + {c} && tokens == old(tokens)[c := old(bus.nextToken)]
                   && bus.Subscriptions() == Subscribed(old(bus.Subscriptions()), TopicOf(c), Listener(actorId))
                   && bus.queue == Offered(old(bus.queue), bus.capacity, bus.running,
                                           Queued(DATA_ENGINE_EXECUTE, DataCommand(Command.Subscribe(c, "", depth)),
                                             false))
    {
      hide Subscribed, TopicOf, Offered, RegisteredAs, Consistent;
      TopicsAreNamed(c);
      if !Admissible(c, depth) {
        return;
      }
      if c in subscriptions {
        return;
      }
      ghost var before := bus.Subscriptions();
      SubscribeKeepsRegistered(before, TopicOf(c), Listener(actorId));
      subscriptions := subscriptions + {c};
      var token := bus.SubscribeTopic(TopicOf(c), Listener(actorId));
      tokens := tokens[c := token];
      bus.Send(DATA_ENGINE_EXECUTE, DataCommand(Command.Subscribe(c, "", depth)));
    }

    /** `unsubscribe_*`: the command is sent whether or not the channel was held. */
    method Unsubscribe(c: Channel)
      requires Valid()
      modifies this, bus`subscribers, bus`tokenToTopic, bus`queue, bus`accepted
      ensures Valid()
      ensures c.id == "" || (c.Bar? && c.spec == "") <==> !Named(c)
      ensures if !Named(c)
              then unchanged(this, bus)
              else && subscriptions == old(subscriptions) - {c} && tokens == old(tokens) - {c}
                   && bus.Subscriptions() ==
                        (if c in old(tokens) then Unsubscribed(old(bus.Subscriptions()), old(tokens)[c])
                                              else old(bus.Subscriptions()))
                   && bus.queue == Offered(old(bus.queue), bus.capacity, bus.running,
                                           Queued(DATA_ENGINE_EXECUTE, DataCommand(Command.Unsubscribe(c)), false))
    {
      hide Unsubscribed, Offered, RegisteredAs;
      if !Named(c) {
        return;
      }
      subscriptions := subscriptions - {c};
      if c in tokens {
        UnsubscribeKeepsRegistered(bus.Subscriptions(), tokens[c]);
        bus.UnsubscribeToken(tokens[c]);
        tokens := tokens - {c};
      }
      bus.Send(DATA_ENGINE_EXECUTE, DataCommand(Command.Unsubscribe(c)));
    }
  }
}
