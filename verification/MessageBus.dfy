/** The message bus: a bounded FIFO queue, and topic subscriptions held under tokens. */
module MessageBuses {

  // Subscription registry.

  datatype Registry<H> = Registry(subscribers: map<string, map<nat, H>>, topicOf: map<nat, string>, next: nat)

  datatype RegistryOp<H> =
    | AddSubscriber(topic: string, handler: H)
    | RemoveSubscriber(token: nat)
    | RemoveTopic(topic: string)

  function Handlers<H>(r: Registry<H>, topic: string): map<nat, H> {
    if topic in r.subscribers then r.subscribers[topic] else map[]
  }

  function Subscribed<H>(r: Registry<H>, topic: string, handler: H): Registry<H> {
    Registry(r.subscribers[topic := Handlers(r, topic)[r.next := handler]], r.topicOf[r.next := topic], r.next + 1)
  }

  function Unsubscribed<H>(r: Registry<H>, token: nat): Registry<H> {
    if token !in r.topicOf then r
    else
      var topic := r.topicOf[token];
      var left := Handlers(r, topic) - {token};
      r.(subscribers := if topic !in r.subscribers then r.subscribers
                        else if left == map[] then r.subscribers - {topic} else r.subscribers[topic := left],
         topicOf := r.topicOf - {token})
  }

  function UnsubscribedAll<H>(r: Registry<H>, topic: string): Registry<H> {
    r.(subscribers := r.subscribers - {topic}, topicOf := r.topicOf - Handlers(r, topic).Keys)
  }

  function Registered<H>(r: Registry<H>, op: RegistryOp<H>): Registry<H> {
    match op
    case AddSubscriber(topic, handler) => Subscribed(r, topic, handler)
    case RemoveSubscriber(token) => Unsubscribed(r, token)
    case RemoveTopic(topic) => UnsubscribedAll(r, topic)
  }

  function Empty<H>(): Registry<H> {
    Registry(map[], map[], 1)
  }

  function RegisteredAll<H>(ops: seq<RegistryOp<H>>): Registry<H> {
    if ops == [] then Empty() else Registered(RegisteredAll(ops[..|ops| - 1]), ops[|ops| - 1])
  }

  /** The two maps are exact inverses, no topic is empty, and every token was handed out before. */
  ghost predicate Consistent<H>(r: Registry<H>) {
    && (forall topic, token :: topic in r.subscribers && token in r.subscribers[topic] ==>
         token in r.topicOf && r.topicOf[token] == topic)
    && (forall token :: token in r.topicOf ==>
         r.topicOf[token] in r.subscribers && token in r.subscribers[r.topicOf[token]])
    && (forall topic :: topic in r.subscribers ==> r.subscribers[topic] != map[])
    && (forall token :: token in r.topicOf ==> 1 <= token < r.next)
    && r.next >= 1
  }

  lemma SubscribeKeepsConsistent<H>(r: Registry<H>, topic: string, handler: H)
    requires Consistent(r)
    ensures Consistent(Subscribed(r, topic, handler))
  {
    assert r.next in Subscribed(r, topic, handler).subscribers[topic];
  }

  lemma UnsubscribeKeepsConsistent<H>(r: Registry<H>, token: nat)
    requires Consistent(r)
    ensures Consistent(Unsubscribed(r, token))
  {
    if token in r.topicOf {
      var topic, r' := r.topicOf[token], Unsubscribed(r, token);
      var left := Handlers(r, topic) - {token};
      forall t | t in r'.topicOf ensures r'.topicOf[t] in r'.subscribers && t in r'.subscribers[r'.topicOf[t]] {
        assert r.topicOf[t] == topic ==> t in left;
      }
    }
  }

  lemma UnsubscribeAllKeepsConsistent<H>(r: Registry<H>, topic: string)
    requires Consistent(r)
    ensures Consistent(UnsubscribedAll(r, topic))
  {
    var r' := UnsubscribedAll(r, topic);
    forall t | t in r.topicOf ensures t in Handlers(r, topic) <==> r.topicOf[t] == topic {
    }
  }

  lemma OpKeepsConsistent<H>(r: Registry<H>, op: RegistryOp<H>)
    requires Consistent(r)
    ensures Consistent(Registered(r, op)) && Registered(r, op).next >= r.next
  {
    match op {
      case AddSubscriber(topic, handler) => SubscribeKeepsConsistent(r, topic, handler);
      case RemoveSubscriber(token) => UnsubscribeKeepsConsistent(r, token);
      case RemoveTopic(topic) => UnsubscribeAllKeepsConsistent(r, topic);
    }
  }

  /** Operation i handed out this token. */
  ghost predicate Issued<H>(ops: seq<RegistryOp<H>>, i: int, token: nat) {
    0 <= i < |ops| && ops[i].AddSubscriber? && RegisteredAll(ops[..i]).next == token
  }

  predicate Ends<H>(op: RegistryOp<H>, topic: string, token: nat) {
    op == RemoveSubscriber(token) || op == RemoveTopic(topic)
  }

  /** Subscribed at operation i, and neither it nor its whole topic unsubscribed since. */
  ghost predicate Live<H>(ops: seq<RegistryOp<H>>, i: int, token: nat) {
    && Issued(ops, i, token)
    && forall j :: i < j < |ops| ==> !Ends(ops[j], ops[i].topic, token)
  }

  /** Over every run of operations the registry is consistent and no token is handed out twice. */
  lemma {:induction false} TokensAreFresh<H>(ops: seq<RegistryOp<H>>)
    ensures Consistent(RegisteredAll(ops))
    ensures forall i, token: nat :: Issued(ops, i, token) ==> 1 <= token < RegisteredAll(ops).next
    ensures forall i, j, token: nat :: Issued(ops, i, token) && Issued(ops, j, token) ==> i == j
  {
    if ops != [] {
      var n := |ops| - 1;
      TokensAreFresh(ops[..n]);
      OpKeepsConsistent(RegisteredAll(ops[..n]), ops[n]);
      LiveExtends(ops);
    }
  }

  /** A handler is registered under a token exactly while its subscription is live, for its own topic. */
  lemma {:induction false} RegistryRefinesHistory<H>(ops: seq<RegistryOp<H>>, token: nat)
    ensures token in RegisteredAll(ops).topicOf <==> exists i :: Live(ops, i, token)
    ensures forall i :: Live(ops, i, token) ==> RegisteredAs(RegisteredAll(ops), token, ops[i].topic, ops[i].handler)
  {
    TokensAreFresh(ops);
    if ops != [] {
      var n := |ops| - 1;
      var r, op := RegisteredAll(ops[..n]), ops[n];
      TokensAreFresh(ops[..n]);
      RegistryRefinesHistory(ops[..n], token);
      LiveExtends(ops);
      if token in r.topicOf {
        StillRegistered(r, op, token);
        var i :| Live(ops[..n], i, token);
        assert Live(ops, i, token) <==> !Ends(op, r.topicOf[token], token);
        assert forall j :: Live(ops, j, token) ==> j == i;
      } else if Issued(ops, n, token) {
        assert Live(ops, n, token);
      }
    }
  }

  ghost predicate RegisteredAs<H>(r: Registry<H>, token: nat, topic: string, handler: H) {
    token in r.topicOf && r.topicOf[token] == topic && token in Handlers(r, topic)
      && Handlers(r, topic)[token] == handler
  }

  lemma LiveExtends<H>(ops: seq<RegistryOp<H>>)
    requires ops != []
    ensures var n := |ops| - 1;
            && (forall i, token: nat :: 0 <= i < n ==>
                 (Issued(ops, i, token) <==> Issued(ops[..n], i, token)) && ops[i] == ops[..n][i])
            && (forall i, token: nat :: 0 <= i < n ==>
                 (Live(ops, i, token) <==> Live(ops[..n], i, token) && !Ends(ops[n], ops[i].topic, token)))
  {
    var n := |ops| - 1;
    assert forall i :: 0 <= i < n ==> ops[..n][i] == ops[i] && ops[..n][..i] == ops[..i];
  }

  /** An operation drops a registration exactly when it ends it, and never moves one. */
  lemma StillRegistered<H>(r: Registry<H>, op: RegistryOp<H>, token: nat)
    requires Consistent(r) && token in r.topicOf
    ensures var r', topic := Registered(r, op), r.topicOf[token];
            && (token in r'.topicOf <==> !Ends(op, topic, token))
            && (token in r'.topicOf ==> r'.topicOf[token] == topic && token in Handlers(r', topic)
                                        && Handlers(r', topic)[token] == Handlers(r, topic)[token])
  {
    var r' := Registered(r, op);
    OpKeepsConsistent(r, op);
    if op.RemoveTopic? {
      assert token in Handlers(r, op.topic) <==> r.topicOf[token] == op.topic;
    }
  }

  /** An operation registers at most the next token, and only a new subscription does. */
  lemma OpAddsOne<H>(r: Registry<H>, op: RegistryOp<H>)
    ensures forall token :: token in Registered(r, op).topicOf ==>
              token in r.topicOf || (op.AddSubscriber? && token == r.next)
    ensures Registered(r, op).next == if op.AddSubscriber? then r.next + 1 else r.next
  {
  }

  lemma OpKeepsRegistered<H>(r: Registry<H>, op: RegistryOp<H>, token: nat, topic: string, handler: H)
    requires Consistent(r) && RegisteredAs(r, token, topic, handler) && !Ends(op, topic, token)
    ensures RegisteredAs(Registered(r, op), token, topic, handler) && token < r.next
  {
    StillRegistered(r, op, token);
  }

  /** What a new subscription does to registrations: it adds its own and keeps the others. */
  lemma SubscribeKeepsRegistered<H(!new)>(r: Registry<H>, topic: string, handler: H)
    requires Consistent(r)
    ensures var r' := Subscribed(r, topic, handler);
            && Consistent(r') && r.next !in r.topicOf && RegisteredAs(r', r.next, topic, handler)
            && r'.topicOf.Keys == r.topicOf.Keys + {r.next}
            && forall token, t, h :: RegisteredAs(r, token, t, h) ==> token != r.next && RegisteredAs(r', token, t, h)
  {
    SubscribeKeepsConsistent(r, topic, handler);
    forall token, t, h | RegisteredAs(r, token, t, h) ensures RegisteredAs(Subscribed(r, topic, handler), token, t, h) {
      StillRegistered(r, AddSubscriber(topic, handler), token);
    }
  }

  /** Dropping a token drops its registration and keeps the others. */
  lemma UnsubscribeKeepsRegistered<H(!new)>(r: Registry<H>, dropped: nat)
    requires Consistent(r)
    ensures var r' := Unsubscribed(r, dropped);
            && Consistent(r') && r'.topicOf.Keys == r.topicOf.Keys - {dropped}
            && forall token, t, h :: RegisteredAs(r, token, t, h) && token != dropped ==> RegisteredAs(r', token, t, h)
  {
    UnsubscribeKeepsConsistent(r, dropped);
    forall token, t, h | RegisteredAs(r, token, t, h) && token != dropped
      ensures RegisteredAs(Unsubscribed(r, dropped), token, t, h)
    {
      StillRegistered(r, RemoveSubscriber(dropped), token);
    }
  }

  // Queue.

  datatype Queued<M> = Queued(target: string, message: M, isPublish: bool)

  /** What `send` and `publish` do to the queue: a full or stopped bus drops the message. */
  function Offered<Q>(queue: seq<Q>, capacity: nat, running: bool, q: Q): seq<Q> {
    if running && |queue| < capacity then queue + [q] else queue
  }

  lemma CalledAll<H>(handlers: map<nat, H>, tokens: seq<nat>, calls: seq<H>, called: map<nat, H>)
    requires |calls| == |tokens| && forall token :: token in tokens <==> token in handlers
    requires forall i :: 0 <= i < |tokens| ==> tokens[i] in handlers && calls[i] == handlers[tokens[i]]
    requires forall token :: token in called <==> token in tokens
    requires forall i :: 0 <= i < |tokens| ==> tokens[i] in called && called[tokens[i]] == calls[i]
    ensures called == handlers
  {
  }

  class MessageBus<M(!new), H(==, !new)> {
    const capacity: nat
    var running: bool
    var endpoints: map<string, H>
    var subscribers: map<string, map<nat, H>>
    var tokenToTopic: map<nat, string>
    var nextToken: nat
    var queue: seq<Queued<M>>
    var processed: nat
    ghost var accepted: seq<Queued<M>>  // every message ever put on the queue
    ghost var handled: seq<Queued<M>>  // every message ever taken off it

    function Subscriptions(): Registry<H>
      reads this
    {
      Registry(subscribers, tokenToTopic, nextToken)
    }

    /** Messages leave in the order in which they were accepted, and none is lost or made up. */
    ghost predicate Valid()
      reads this
    {
      && Consistent(Subscriptions())
      && capacity > 0 && |queue| <= capacity
      && accepted == handled + queue && processed == |handled|
    }

    constructor (maxQueueSize: nat)
      requires maxQueueSize > 0
      ensures Valid() && !running && queue == [] && handled == [] && capacity == maxQueueSize
      ensures Subscriptions() == Empty() && endpoints == map[]
    {
      capacity, running, endpoints := maxQueueSize, false, map[];
      subscribers, tokenToTopic, nextToken := map[], map[], 1;
      queue, processed, accepted, handled := [], 0, [], [];
    }

    /** An empty endpoint name is an invalid argument. */
    method RegisterHandler(endpoint: string, handler: H) returns (ok: bool)
      requires Valid()
      modifies this`endpoints
      ensures Valid() && ok == (endpoint != "")
      ensures endpoints == if ok then old(endpoints)[endpoint := handler] else old(endpoints)
    {
      if endpoint == "" {
        return false;
      }
      endpoints := endpoints[endpoint := handler];
      return true;
    }

    method Send(endpoint: string, message: M)
      requires Valid()
      modifies this`queue, this`accepted
      ensures Valid() && queue == Offered(old(queue), capacity, running, Queued(endpoint, message, false))
    {
      if !running {
        return;
      }
      if |queue| >= capacity {
        return;
      }
      queue := queue + [Queued(endpoint, message, false)];
      accepted := accepted + [Queued(endpoint, message, false)];
    }

    method Publish(topic: string, message: M)
      requires Valid()
      modifies this`queue, this`accepted
      ensures Valid() && queue == Offered(old(queue), capacity, running, Queued(topic, message, true))
    {
      if !running {
        return;
      }
      if |queue| >= capacity {
        return;
      }
      queue := queue + [Queued(topic, message, true)];
      accepted := accepted + [Queued(topic, message, true)];
    }

    /** An empty topic name is an invalid argument; the answer is then the invalid token, 0. */
    method SubscribeTopic(topic: string, handler: H) returns (token: nat)
      requires Valid()
      modifies this`subscribers, this`tokenToTopic, this`nextToken
      ensures Valid()
      ensures Subscriptions() == if topic == "" then old(Subscriptions())
        else Subscribed(old(Subscriptions()), topic, handler)
      ensures token == if topic == "" then 0 else old(nextToken)
      ensures token !in old(tokenToTopic)
    {
      if topic == "" {
        return 0;
      }
      OpKeepsConsistent(Subscriptions(), AddSubscriber(topic, handler));
      token := nextToken;
      nextToken := nextToken + 1;
      var handlers := if topic in subscribers then subscribers[topic] else map[];
      subscribers := subscribers[topic := handlers[token := handler]];
      tokenToTopic := tokenToTopic[token := topic];
    }

    /** Token 0 is the invalid token; it is never handed out. */
    method UnsubscribeToken(token: nat)
      requires Valid()
      modifies this`subscribers, this`tokenToTopic
      ensures Valid() && Subscriptions() == Unsubscribed(old(Subscriptions()), token)
    {
      UnsubscribeKeepsConsistent(Subscriptions(), token);
      if token == 0 || token !in tokenToTopic {
        return;
      }
      var topic := tokenToTopic[token];
      if topic in subscribers {
        var left := subscribers[topic] - {token};
        subscribers := if left == map[] then subscribers - {topic} else subscribers[topic := left];
      }
      tokenToTopic := tokenToTopic - {token};
    }

    method UnsubscribeTopic(topic: string)
      requires Valid()
      modifies this`subscribers, this`tokenToTopic
      ensures Valid() && Subscriptions() == UnsubscribedAll(old(Subscriptions()), topic)
    {
      OpKeepsConsistent(Subscriptions(), RemoveTopic(topic));
      if topic in subscribers {
        tokenToTopic := tokenToTopic - subscribers[topic].Keys;
        subscribers := subscribers - {topic};
      } else {
        assert subscribers - {topic} == subscribers && tokenToTopic - {} == tokenToTopic;
      }
    }

    method Start()
      requires Valid()
      modifies this`running
      ensures Valid() && running
    {
      running := true;
    }

    lemma RegistryIsConsistent()
      requires Valid()
      ensures Consistent(Registry(subscribers, tokenToTopic, nextToken))
    {
    }

    /** The bus takes no more messages. */
    method Halt()
      requires Valid()
      modifies this`running
      ensures Valid() && !running
    {
      running := false;
    }

    /** Takes the oldest message off the queue and counts it. */
    method Take() returns (q: Queued<M>)
      requires Valid() && queue != []
      modifies this`queue, this`handled, this`processed
      ensures Valid() && [q] + queue == old(queue) && handled == old(handled) + [q]
    {
      q := queue[0];
      queue := queue[1..];
      handled := handled + [q];
      processed := processed + 1;
    }

    /** The handlers a message goes to, read when it is processed: for a published message the handler of every token
        registered for the topic at that moment, each once and in no particular order; otherwise the endpoint's
        handler. */
    method Recipients(q: Queued<M>) returns (tokens: seq<nat>, calls: seq<H>)
      requires Valid()
      ensures q.isPublish ==>
        && |calls| == |tokens| && (forall i, j :: 0 <= i < j < |tokens| ==> tokens[i] != tokens[j])
        && (forall token :: token in tokens <==> token in tokenToTopic && tokenToTopic[token] == q.target)
        && (forall token :: token in tokens <==> token in Handlers(Subscriptions(), q.target))
        && (forall i :: 0 <= i < |tokens| ==>
             tokens[i] in Handlers(Subscriptions(), q.target)
               && calls[i] == Handlers(Subscriptions(), q.target)[tokens[i]])
      ensures !q.isPublish ==> tokens == [] && calls == if q.target in endpoints then [endpoints[q.target]] else []
    {
      tokens, calls := [], [];
      if q.isPublish {
        var handlers := if q.target in subscribers then subscribers[q.target] else map[];
        var rest := handlers.Keys;
        while rest != {}
          invariant rest <= handlers.Keys && |calls| == |tokens|
          invariant forall token :: token in tokens <==> token in handlers.Keys - rest
          invariant forall i, j :: 0 <= i < j < |tokens| ==> tokens[i] != tokens[j]
          invariant forall i :: 0 <= i < |tokens| ==> tokens[i] in handlers && calls[i] == handlers[tokens[i]]
          decreases rest
        {
          var token :| token in rest;
          assert forall i :: 0 <= i < |tokens| ==> tokens[i] in tokens;
          tokens, calls, rest := tokens + [token], calls + [handlers[token]], rest - {token};
        }
      } else if q.target in endpoints {
        calls := [endpoints[q.target]];
      }
    }
  }
}
