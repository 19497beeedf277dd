/** The subscription protocol: actors keep what they hold and queue commands, the bus carries them, the engine counts
    them. Everything is stated with commands still in flight. */
module Subscriptions {
  import opened Channels
  import opened DataEngines
  import opened MessageBuses
  import opened Messages

  /** One actor's subscription to one channel. */
  type Hold = (nat, Channel)

  /** A queued message; the sender matters for data commands only. */
  datatype Entry = Entry(queued: Queued<Message>, sender: nat)

  datatype System = System(
    held: map<Hold, int>,  // what the actors hold, with the depth they asked for
    tokens: map<Hold, nat>,  // the actors' bus tokens
    registry: Registry<Handler>,
    others: set<nat>,  // history: tokens handed to other components
    queue: seq<Entry>,
    capacity: nat,
    running: bool,
    engine: Engine,
    venueOf: map<string, string>,
    registered: map<Hold, int>)  // history: holds whose latest executed command is a subscription

  datatype Step =
    | ActorSubscribes(actor: nat, channel: Channel, depth: int)
    | ActorUnsubscribes(actor: nat, channel: Channel)
    | OthersSend(queued: Queued<Message>)
    | OthersRegister(op: RegistryOp<Handler>)  // other components subscribe to topics, and drop tokens or topics
    | HandleOne
    | RegisterClient(registration: Registration)
    | CacheInstruments(venueOf: map<string, string>)  // instruments enter the cache, or it is cleared
    | StartBus
    | StopBus  // what is queued is then still handled

  predicate Accepts(s: System) {
    s.running && |s.queue| < s.capacity
  }

  function Sent(s: System, actor: nat, cmd: Command): System {
    s.(queue := Offered(s.queue, s.capacity, s.running,
      Entry(Queued(DATA_ENGINE_EXECUTE, DataCommand(cmd), false), actor)))
  }

  predicate IsCommand(e: Entry) {
    !e.queued.isPublish && e.queued.target == DATA_ENGINE_EXECUTE && e.queued.message.DataCommand?
  }

  function CommandOf(e: Entry): Command
    requires IsCommand(e)
  {
    e.queued.message.command
  }

  function HoldOf(e: Entry): Hold
    requires IsCommand(e)
  {
    (e.sender, CommandOf(e).channel)
  }

  /** The holds once a command is executed. */
  function Settled(holds: map<Hold, int>, e: Entry): map<Hold, int> {
    if !IsCommand(e) then holds
    else if CommandOf(e).Subscribe? then holds[HoldOf(e) := CommandOf(e).depth]
    else holds - {HoldOf(e)}
  }

  function SettledAll(holds: map<Hold, int>, q: seq<Entry>): map<Hold, int>
    decreases |q|
  {
    if q == [] then holds else SettledAll(Settled(holds, q[0]), q[1..])
  }

  ghost function Next(s: System, step: Step): System {
    match step
    case ActorSubscribes(a, c, depth) =>
      if !Admissible(c, depth) || (a, c) in s.held then s
      else
        Sent(s.(held := s.held[(a, c) := depth],
                tokens := s.tokens[(a, c) := s.registry.next],
                registry := Subscribed(s.registry, TopicOf(c), Listener(a))),
             a, Subscribe(c, "", depth))
    case ActorUnsubscribes(a, c) =>
      if !Named(c) then s
      else
        Sent(s.(held := s.held - {(a, c)},
                tokens := s.tokens - {(a, c)},
                registry := if (a, c) in s.tokens then Unsubscribed(s.registry, s.tokens[(a, c)]) else s.registry),
             a, Unsubscribe(c))
    case OthersSend(queued) =>
      s.(queue := Offered(s.queue, s.capacity, s.running, Entry(queued, 0)))
    case OthersRegister(op) =>
      if op.AddSubscriber? && op.topic == "" then s
      else
        s.(registry := Registered(s.registry, op),
           others := if op.AddSubscriber? then s.others + {s.registry.next} else s.others)
    case HandleOne =>
      if s.queue == [] then s
      else
        var e := s.queue[0];
        s.(queue := s.queue[1..],
           engine := if IsCommand(e) then Executed(s.engine, s.venueOf, CommandOf(e)) else s.engine,
           registered := Settled(s.registered, e))
    case RegisterClient(r) =>
      s.(engine := RegisteredClient(s.engine, r.id, r.venue, r.client))
    case CacheInstruments(venueOf) => s.(venueOf := venueOf)
    case StartBus => s.(running := true)
    case StopBus => s.(running := false)
  }

  /** Other components leave the actors' own registrations alone. */
  ghost predicate Apart(s: System, step: Step) {
    step.OthersRegister? ==>
      && (step.op.RemoveSubscriber? ==> !Owned(s.tokens, step.op.token))
      && (step.op.RemoveTopic? ==> forall h :: h in s.tokens ==> TopicOf(h.1) != step.op.topic)
  }

  /** Actors unsubscribe what they hold, nothing is dropped, and registered clients carry what is pinned to their
      names. */
  ghost predicate Clean(s: System, step: Step) {
    match step
    case ActorSubscribes(a, c, depth) => Admissible(c, depth) && (a, c) !in s.held ==> Accepts(s)
    case ActorUnsubscribes(a, c) => Named(c) ==> Accepts(s) && (a, c) in s.held
    case OthersSend(queued) => !IsCommand(Entry(queued, 0))
    case OthersRegister(_) => Apart(s, step)
    case HandleOne => true
    case RegisterClient(r) => r.id != "" && Fits(s.engine, r.id, r.client)
    case _ => true
  }

  // Counting.

  function Holders(holds: set<Hold>, k: Key): set<Hold> {
    set h | h in holds && KeyOf(h.1) == k
  }

  /** Subscriptions minus unsubscriptions of a key among queued messages. */
  function Pending(q: seq<Entry>, k: Key): int {
    if q == [] then 0 else Pending(q[..|q| - 1], k) + Effect(q[|q| - 1], k)
  }

  /** Each queued command will find its hold as it expects it: absent for a subscription, present for the opposite. */
  ghost predicate WellQueued(holds: map<Hold, int>, q: seq<Entry>)
    decreases |q|
  {
    q == [] || (Expected(holds, q[0]) && WellQueued(Settled(holds, q[0]), q[1..]))
  }

  predicate Expected(holds: map<Hold, int>, e: Entry) {
    IsCommand(e) ==> (CommandOf(e).Subscribe? <==> HoldOf(e) !in holds)
  }

  lemma {:induction false} QueueSnoc(holds: map<Hold, int>, q: seq<Entry>, e: Entry)
    ensures SettledAll(holds, q + [e]) == Settled(SettledAll(holds, q), e)
    ensures WellQueued(holds, q + [e]) <==> WellQueued(holds, q) && Expected(SettledAll(holds, q), e)
    decreases |q|
  {
    if q == [] {
      assert [e][1..] == [];
    } else {
      assert (q + [e])[1..] == q[1..] + [e];
      QueueSnoc(Settled(holds, q[0]), q[1..], e);
    }
  }

  lemma HoldersOne(holds: set<Hold>, h: Hold, k: Key)
    ensures h !in holds ==> |Holders(holds + {h}, k)| == |Holders(holds, k)| + if KeyOf(h.1) == k then 1 else 0
    ensures h in holds ==> |Holders(holds - {h}, k)| == |Holders(holds, k)| - if KeyOf(h.1) == k then 1 else 0
  {
    if KeyOf(h.1) == k {
      assert Holders(holds + {h}, k) == Holders(holds, k) + {h};
      assert Holders(holds - {h}, k) == Holders(holds, k) - {h};
    } else {
      assert Holders(holds + {h}, k) == Holders(holds, k);
      assert Holders(holds - {h}, k) == Holders(holds, k);
    }
  }

  /** What one queued command will do to the count of a key. */
  function Effect(e: Entry, k: Key): int {
    if !IsCommand(e) || KeyOf(CommandOf(e).channel) != k then 0 else if CommandOf(e).Subscribe? then 1 else -1
  }

  lemma SettledHolders(holds: map<Hold, int>, e: Entry, k: Key)
    requires Expected(holds, e)
    ensures |Holders(Settled(holds, e).Keys, k)| == |Holders(holds.Keys, k)| + Effect(e, k)
  {
    if IsCommand(e) {
      var h := HoldOf(e);
      HoldersOne(holds.Keys, h, k);
      assert Settled(holds, e).Keys == if CommandOf(e).Subscribe? then holds.Keys + {h} else holds.Keys - {h};
    }
  }

  /** At every prefix of the queue: the holders there will be, in terms of those there are and the commands in
      between. */
  lemma {:induction false} PrefixHolders(holds: map<Hold, int>, q: seq<Entry>, j: nat, k: Key)
    requires WellQueued(holds, q) && j <= |q|
    ensures WellQueued(holds, q[..j])
    ensures |Holders(SettledAll(holds, q[..j]).Keys, k)| == |Holders(holds.Keys, k)| + Pending(q[..j], k)
  {
    if j > 0 {
      PrefixHolders(holds, q, j - 1, k);
      var before, e := q[..j - 1], q[j - 1];
      assert q[..j] == before + [e] && q[..j][..j - 1] == before;
      QueueSnoc(holds, before, e);
      PrefixWellQueued(holds, q, j);
      SettledHolders(SettledAll(holds, before), e, k);
    }
  }

  lemma {:induction false} PrefixWellQueued(holds: map<Hold, int>, q: seq<Entry>, j: nat)
    requires WellQueued(holds, q) && j <= |q|
    ensures WellQueued(holds, q[..j])
    decreases j
  {
    if j > 0 {
      PrefixWellQueued(Settled(holds, q[0]), q[1..], j - 1);
      assert q[..j][1..] == q[1..][..j - 1];
    }
  }

  // The invariant.

  /** The bus registers the actors' tokens, one for each hold, each for its own topic and actor, and besides them only
      tokens of other components. */
  ghost predicate TokensMatch(r: Registry<Handler>, tokens: map<Hold, nat>, others: set<nat>) {
    && Consistent(r) && (forall token :: token in others ==> token < r.next && !Owned(tokens, token))
    && (forall h :: h in tokens ==> RegisteredAs(r, tokens[h], TopicOf(h.1), Listener(h.0)))
    && (forall g, h :: g in tokens && h in tokens && tokens[g] == tokens[h] ==> g == h)
    && (forall token :: token in r.topicOf ==> Owned(tokens, token) || token in others)
  }

  ghost predicate TokensExact(s: System) {
    TokensMatch(s.registry, s.tokens, s.others) && s.tokens.Keys == s.held.Keys
  }

  ghost predicate EngineExact(s: System) {
    && EngineValid(s.engine) && "" !in s.engine.clients
    && (forall k :: Count(s.engine, k) == |Holders(s.registered.Keys, k)|)
    && (forall h :: h in s.registered && h.1.Book? ==> s.registered[h] in DepthCounts(s.engine, h.1.id))
  }

  ghost predicate QueueExact(s: System) {
    WellQueued(s.registered, s.queue) && SettledAll(s.registered, s.queue) == s.held
  }

  ghost predicate Invariant(s: System) {
    TokensExact(s) && EngineExact(s) && QueueExact(s) && s.engine.defaultClient != ""
  }

  ghost predicate Owned(tokens: map<Hold, nat>, token: nat) {
    exists h :: h in tokens && tokens[h] == token
  }

  lemma AddTokenMatches(r: Registry<Handler>, tokens: map<Hold, nat>, others: set<nat>, h: Hold)
    requires TokensMatch(r, tokens, others) && h !in tokens
    ensures TokensMatch(Subscribed(r, TopicOf(h.1), Listener(h.0)), tokens[h := r.next], others)
  {
    hide Subscribed, RegisteredAs, Consistent, TopicOf;
    var tokens' := tokens[h := r.next];
    SubscribeKeepsRegistered(r, TopicOf(h.1), Listener(h.0));
    assert tokens'[h] == r.next;
    forall token ensures Owned(tokens', token) <==> Owned(tokens, token) || token == r.next {
      if Owned(tokens, token) {
        var g :| g in tokens && tokens[g] == token;
        assert tokens'[g] == token;
      }
    }
  }

  lemma DropTokenMatches(r: Registry<Handler>, tokens: map<Hold, nat>, others: set<nat>, h: Hold)
    requires TokensMatch(r, tokens, others) && h in tokens
    ensures TokensMatch(Unsubscribed(r, tokens[h]), tokens - {h}, others)
  {
    hide Unsubscribed, RegisteredAs, Consistent, TopicOf;
    var tokens' := tokens - {h};
    UnsubscribeKeepsRegistered(r, tokens[h]);
    OpAddsOne(r, RemoveSubscriber(tokens[h]));
    forall token ensures Owned(tokens', token) <==> Owned(tokens, token) && token != tokens[h] {
      if Owned(tokens, token) && token != tokens[h] {
        var g :| g in tokens && tokens[g] == token;
        assert tokens'[g] == token;
      }
    }
  }

  lemma OthersMatch(r: Registry<Handler>, tokens: map<Hold, nat>, others: set<nat>, op: RegistryOp<Handler>)
    requires TokensMatch(r, tokens, others)
    requires forall h :: h in tokens ==> !Ends(op, TopicOf(h.1), tokens[h])
    ensures TokensMatch(Registered(r, op), tokens, if op.AddSubscriber? then others + {r.next} else others)
  {
    hide Registered, RegisteredAs, Consistent, TopicOf, Ends;
    OpKeepsConsistent(r, op);
    OpAddsOne(r, op);
    forall h | h in tokens
      ensures RegisteredAs(Registered(r, op), tokens[h], TopicOf(h.1), Listener(h.0)) && tokens[h] < r.next
    {
      OpKeepsRegistered(r, op, tokens[h], TopicOf(h.1), Listener(h.0));
    }
  }

  lemma OthersKeepTokens(s: System, op: RegistryOp<Handler>)
    requires TokensExact(s) && Apart(s, OthersRegister(op))
    ensures TokensExact(Next(s, OthersRegister(op)))
  {
    hide TokensMatch, TopicOf, Registered;
    forall h | h in s.tokens ensures !Ends(op, TopicOf(h.1), s.tokens[h]) {
      assert Owned(s.tokens, s.tokens[h]);
    }
    OthersMatch(s.registry, s.tokens, s.others, op);
  }

  lemma SentKeeps(s: System, actor: nat, cmd: Command)
    ensures var t := Sent(s, actor, cmd);
            && t.held == s.held && t.tokens == s.tokens && t.registry == s.registry
            && t.others == s.others && t.engine == s.engine
  {
  }

  lemma SubscribeKeepsTokens(s: System, a: nat, c: Channel, depth: int)
    requires TokensExact(s)
    ensures TokensExact(Next(s, ActorSubscribes(a, c, depth)))
  {
    if Admissible(c, depth) && (a, c) !in s.held {
      AddTokenMatches(s.registry, s.tokens, s.others, (a, c));
      var t := s.(held := s.held[(a, c) := depth], tokens := s.tokens[(a, c) := s.registry.next],
                  registry := Subscribed(s.registry, TopicOf(c), Listener(a)));
      SentKeeps(t, a, Command.Subscribe(c, "", depth));
    }
  }

  lemma UnsubscribeKeepsTokens(s: System, a: nat, c: Channel)
    requires TokensExact(s)
    ensures TokensExact(Next(s, ActorUnsubscribes(a, c)))
  {
    if Named(c) {
      if (a, c) in s.tokens {
        DropTokenMatches(s.registry, s.tokens, s.others, (a, c));
      } else {
        assert s.tokens - {(a, c)} == s.tokens;
      }
      var t := s.(held := s.held - {(a, c)}, tokens := s.tokens - {(a, c)},
                  registry := if (a, c) in s.tokens then Unsubscribed(s.registry, s.tokens[(a, c)]) else s.registry);
      SentKeeps(t, a, Command.Unsubscribe(c));
    }
  }

  lemma StepKeepsTokens(s: System, step: Step)
    requires TokensExact(s) && Apart(s, step)
    ensures TokensExact(Next(s, step))
  {
    match step {
      case ActorSubscribes(a, c, depth) => SubscribeKeepsTokens(s, a, c, depth);
      case ActorUnsubscribes(a, c) => UnsubscribeKeepsTokens(s, a, c);
      case OthersRegister(op) => OthersKeepTokens(s, op);
      case _ =>
    }
  }

  lemma StepKeepsQueue(s: System, step: Step)
    requires QueueExact(s) && Clean(s, step)
    ensures QueueExact(Next(s, step))
  {
    var t := Next(s, step);
    match step {
      case ActorSubscribes(a, c, depth) =>
        if Admissible(c, depth) && (a, c) !in s.held {
          QueueSnoc(s.registered, s.queue, t.queue[|s.queue|]);
        }
      case ActorUnsubscribes(a, c) =>
        if Named(c) {
          QueueSnoc(s.registered, s.queue, t.queue[|s.queue|]);
        }
      case OthersSend(queued) =>
        QueueSnoc(s.registered, s.queue, Entry(queued, 0));
      case HandleOne =>
      case _ =>
    }
  }

  /** Executing a well-queued command moves the engine's counts and depths as it moves the registered holds. */
  lemma ExecuteKeepsEngine(s: System)
    requires EngineExact(s) && s.engine.defaultClient != "" && s.queue != [] && Expected(s.registered, s.queue[0])
    ensures EngineExact(Next(s, HandleOne))
  {
    var e, t := s.queue[0], Next(s, HandleOne);
    if IsCommand(e) {
      var cmd, key := CommandOf(e), KeyOf(CommandOf(e).channel);
      ExecutedValid(s.engine, s.venueOf, cmd);
      ExecutedCounts(s.engine, s.venueOf, cmd);
      forall k ensures Count(t.engine, k) == |Holders(t.registered.Keys, k)| {
        SettledHolders(s.registered, e, k);
        if cmd.Unsubscribe? {
          assert HoldOf(e) in Holders(s.registered.Keys, key);
        }
      }
      forall h | h in t.registered && h.1.Book? ensures t.registered[h] in DepthCounts(t.engine, h.1.id) {
        ExecuteKeepsDepth(s, h);
      }
    }
  }

  lemma ExecuteKeepsDepth(s: System, h: Hold)
    requires EngineExact(s) && s.engine.defaultClient != "" && s.queue != [] && IsCommand(s.queue[0])
    requires h in Settled(s.registered, s.queue[0]) && h.1.Book?
    requires var t := Next(s, HandleOne); Count(t.engine, KeyOf(h.1)) == |Holders(t.registered.Keys, KeyOf(h.1))|
    ensures var t := Next(s, HandleOne); t.registered[h] in DepthCounts(t.engine, h.1.id)
  {
    var t, cmd, k := Next(s, HandleOne), CommandOf(s.queue[0]), KeyOf(h.1);
    assert KeyValid(s.engine, k);
    assert h in Holders(t.registered.Keys, k);
    if KeyOf(cmd.channel) == k {
      ExecutedCountsDepths(s.engine, s.venueOf, cmd);
    } else {
      ExecutedOthers(s.engine, s.venueOf, cmd, k);
    }
  }

  lemma RegisterKeepsEngine(s: System, r: Registration)
    requires EngineExact(s) && r.id != "" && Fits(s.engine, r.id, r.client)
    ensures EngineExact(Next(s, RegisterClient(r)))
  {
    RegisterKeepsValidIff(s.engine, r.id, r.venue, r.client);
  }

  lemma StepKeepsEngine(s: System, step: Step)
    requires EngineExact(s) && s.engine.defaultClient != "" && QueueExact(s) && Clean(s, step)
    ensures EngineExact(Next(s, step)) && Next(s, step).engine.defaultClient == s.engine.defaultClient
  {
    match step {
      case HandleOne =>
        if s.queue != [] {
          ExecuteKeepsEngine(s);
          if IsCommand(s.queue[0]) {
            assert KeyValid(s.engine, KeyOf(CommandOf(s.queue[0]).channel));
            ExecutedCounts(s.engine, s.venueOf, CommandOf(s.queue[0]));
          }
        }
      case RegisterClient(r) =>
        RegisterKeepsEngine(s, r);
      case _ =>
    }
  }

  // Runs.

  ghost function NextAll(s: System, steps: seq<Step>): System {
    if steps == [] then s else Next(NextAll(s, steps[..|steps| - 1]), steps[|steps| - 1])
  }

  ghost predicate CleanRun(s: System, steps: seq<Step>) {
    forall i :: 0 <= i < |steps| ==> Clean(NextAll(s, steps[..i]), steps[i])
  }

  /** Nobody holds anything, nothing is queued, and at least one client is registered. */
  ghost predicate Initial(s: System) {
    && s.held == map[] && s.tokens == map[] && s.others == {} && s.registered == map[] && s.registry == Empty()
    && s.queue == []
    && EngineValid(s.engine) && s.engine.refcount == map[] && s.engine.defaultClient != "" && "" !in s.engine.clients
  }

  lemma {:induction false} RunKeepsInvariant(s: System, steps: seq<Step>)
    requires Initial(s) && CleanRun(s, steps)
    ensures Invariant(NextAll(s, steps))
  {
    if steps == [] {
      assert forall k :: Holders({}, k) == {};
    } else {
      var n := |steps| - 1;
      assert forall i :: 0 <= i < n ==> steps[..n][..i] == steps[..i];
      RunKeepsInvariant(s, steps[..n]);
      var before := NextAll(s, steps[..n]);
      assert Clean(before, steps[n]);
      StepKeepsTokens(before, steps[n]);
      StepKeepsQueue(before, steps[n]);
      StepKeepsEngine(before, steps[n]);
    }
  }

  /** Conservation in flight, on every clean run: at every prefix of the queue the engine's count plus the commands of
      the prefix is a number of holders, so never negative; over the whole queue it is the number of actors that
      hold. */
  lemma Conservation(s: System, steps: seq<Step>, j: nat, k: Key)
    requires Initial(s) && CleanRun(s, steps) && j <= |NextAll(s, steps).queue|
    ensures var t := NextAll(s, steps);
            && Count(t.engine, k) + Pending(t.queue[..j], k) >= 0
            && Count(t.engine, k) + Pending(t.queue, k) == |Holders(t.held.Keys, k)|
  {
    var t := NextAll(s, steps);
    RunKeepsInvariant(s, steps);
    PrefixHolders(t.registered, t.queue, j, k);
    PrefixHolders(t.registered, t.queue, |t.queue|, k);
    assert t.queue[..|t.queue|] == t.queue;
  }

  /** After a full drain the counts are exactly the numbers of holders, the right client carries exactly the held keys,
      and a held book is open at least as deep as its holder asked. */
  lemma DrainedIsExact(s: System, steps: seq<Step>, h: Hold)
    requires Initial(s) && CleanRun(s, steps)
    requires forall i :: 0 <= i < |NextAll(s, steps).queue| ==> !IsCommand(NextAll(s, steps).queue[i])
    ensures var t, k := NextAll(s, steps), KeyOf(h.1);
            && Count(t.engine, k) == |Holders(t.held.Keys, k)|
            && (h in t.held ==>
                 && k in t.engine.pinned && t.engine.pinned[k] in t.engine.clients
                 && (forall c :: c in t.engine.clients ==>
                      (Carries(t.engine.clients[c], k) <==> c == t.engine.pinned[k]))
                 && (h.1.Book? ==> t.held[h] <= t.engine.clients[t.engine.pinned[k]].books[h.1.id]))
  {
    var t, k := NextAll(s, steps), KeyOf(h.1);
    RunKeepsInvariant(s, steps);
    NothingSettles(t.registered, t.queue);
    assert KeyValid(t.engine, k);
    if h in t.held {
      assert h in Holders(t.held.Keys, k);
    }
  }

  lemma {:induction false} NothingSettles(holds: map<Hold, int>, q: seq<Entry>)
    requires forall i :: 0 <= i < |q| ==> !IsCommand(q[i])
    ensures SettledAll(holds, q) == holds
    decreases |q|
  {
    if q != [] {
      NothingSettles(holds, q[1..]);
    }
  }

  /** The tokens registered for a key's topic are those of the holds of that key, one each, calling the holder, and
      tokens of other components. */
  ghost predicate DeliversExactly(r: Registry<Handler>, tokens: map<Hold, nat>, others: set<nat>, k: Key) {
    && (forall token :: token in Handlers(r, Topic(k)) && token !in others <==> HasToken(tokens, k, token))
    && (forall h :: h in tokens && KeyOf(h.1) == k ==>
         tokens[h] in Handlers(r, Topic(k)) && Handlers(r, Topic(k))[tokens[h]] == Listener(h.0))
    && (forall g, h :: g in tokens && h in tokens && tokens[g] == tokens[h] ==> g == h)
  }

  ghost predicate HasToken(tokens: map<Hold, nat>, k: Key, token: nat) {
    exists h :: h in tokens && KeyOf(h.1) == k && tokens[h] == token
  }

  lemma MatchDelivers(r: Registry<Handler>, tokens: map<Hold, nat>, others: set<nat>, k: Key)
    requires TokensMatch(r, tokens, others)
    ensures DeliversExactly(r, tokens, others, k)
  {
    forall h | h in tokens
      ensures RegisteredAs(r, tokens[h], Topic(KeyOf(h.1)), Listener(h.0))
      ensures Topic(KeyOf(h.1)) == Topic(k) <==> KeyOf(h.1) == k
      ensures tokens[h] !in others
    {
      TopicsAreDistinct(KeyOf(h.1), k);
      assert Owned(tokens, tokens[h]);
    }
    forall token | token in Handlers(r, Topic(k)) && token !in others ensures HasToken(tokens, k, token) {
      assert token in r.topicOf && r.topicOf[token] == Topic(k);
      var h :| h in tokens && tokens[h] == token;
    }
  }

  /** On every step other components leave the actors' registrations alone; what else happens does not matter. */
  ghost predicate ApartRun(s: System, steps: seq<Step>) {
    forall i :: 0 <= i < |steps| ==> Apart(NextAll(s, steps[..i]), steps[i])
  }

  lemma {:induction false} RunKeepsTokens(s: System, steps: seq<Step>)
    requires TokensExact(s) && ApartRun(s, steps)
    ensures TokensExact(NextAll(s, steps))
  {
    hide TokensExact, Next, Apart;
    if steps != [] {
      var n := |steps| - 1;
      assert forall i :: 0 <= i < n ==> steps[..n][..i] == steps[..i] && steps[..n][i] == steps[i];
      RunKeepsTokens(s, steps[..n]);
      StepKeepsTokens(NextAll(s, steps[..n]), steps[n]);
    }
  }

  /** On every run, clean or not, a message published for a key calls each actor once for each of its holds of that key,
      and besides them only handlers that other components registered. */
  lemma DeliveredToHolders(s: System, steps: seq<Step>, k: Key)
    requires TokensExact(s) && ApartRun(s, steps)
    ensures var t := NextAll(s, steps);
            t.tokens.Keys == t.held.Keys && DeliversExactly(t.registry, t.tokens, t.others, k)
  {
    RunKeepsTokens(s, steps);
    var t := NextAll(s, steps);
    MatchDelivers(t.registry, t.tokens, t.others, k);
  }

  // Exactly what breaks the balance, one step at a time.

  ghost predicate Balanced(s: System) {
    forall k :: Count(s.engine, k) + Pending(s.queue, k) == |Holders(s.held.Keys, k)|
  }

  lemma SentPending(s: System, actor: nat, cmd: Command, k: Key)
    ensures Pending(Sent(s, actor, cmd).queue, k) ==
              Pending(s.queue, k)
                + (if Accepts(s) then Effect(Entry(Queued(DATA_ENGINE_EXECUTE, DataCommand(cmd), false), actor), k)
                  else 0)
  {
    var e := Entry(Queued(DATA_ENGINE_EXECUTE, DataCommand(cmd), false), actor);
    assert (s.queue + [e])[..|s.queue|] == s.queue;
  }

  lemma HeldOne(held: map<Hold, int>, h: Hold, depth: int, k: Key)
    ensures h !in held ==>
      |Holders(held[h := depth].Keys, k)| == |Holders(held.Keys, k)| + (if KeyOf(h.1) == k then 1 else 0)
    ensures |Holders((held - {h}).Keys, k)| == |Holders(held.Keys, k)| - (if h in held && KeyOf(h.1) == k then 1 else 0)
  {
    HoldersOne(held.Keys, h, k);
    assert held[h := depth].Keys == held.Keys + {h} && (held - {h}).Keys == held.Keys - {h};
    assert h !in held ==> held.Keys - {h} == held.Keys;
  }

  /** A new subscription keeps the balance exactly when the bus takes its command. */
  lemma SubscribeBalancedIff(s: System, a: nat, c: Channel, depth: int)
    requires Balanced(s) && Admissible(c, depth) && (a, c) !in s.held
    ensures Balanced(Next(s, ActorSubscribes(a, c, depth))) <==> Accepts(s)
  {
    var t, cmd := Next(s, ActorSubscribes(a, c, depth)), Command.Subscribe(c, "", depth);
    forall k
      ensures |Holders(t.held.Keys, k)| == |Holders(s.held.Keys, k)| + (if KeyOf(c) == k then 1 else 0)
      ensures Pending(t.queue, k) == Pending(s.queue, k) + (if Accepts(s) && KeyOf(c) == k then 1 else 0)
    {
      HeldOne(s.held, (a, c), depth, k);
      SentPending(s, a, cmd, k);
    }
    assert Count(s.engine, KeyOf(c)) + Pending(s.queue, KeyOf(c)) == |Holders(s.held.Keys, KeyOf(c))|;
  }

  lemma UnsubscribeSends(s: System, a: nat, c: Channel)
    requires Named(c)
    ensures var t := Next(s, ActorUnsubscribes(a, c));
            && t.held == s.held - {(a, c)} && t.engine == s.engine
            && t.queue == Sent(s, a, Command.Unsubscribe(c)).queue
  {
  }

  /** An unsubscription keeps it exactly when what the actor held and what the bus took agree: the code sends the
      command whether or not the actor held the channel. */
  lemma UnsubscribeBalancedIff(s: System, a: nat, c: Channel)
    requires Balanced(s) && Named(c)
    ensures Balanced(Next(s, ActorUnsubscribes(a, c))) <==> ((a, c) in s.held <==> Accepts(s))
  {
    var t, cmd := Next(s, ActorUnsubscribes(a, c)), Command.Unsubscribe(c);
    forall k
      ensures |Holders(t.held.Keys, k)| ==
        |Holders(s.held.Keys, k)| - (if (a, c) in s.held && KeyOf(c) == k then 1 else 0)
      ensures Pending(t.queue, k) == Pending(s.queue, k) - (if Accepts(s) && KeyOf(c) == k then 1 else 0)
    {
      HeldOne(s.held, (a, c), 0, k);
      UnsubscribeSends(s, a, c);
      SentPending(s, a, cmd, k);
    }
    UnsubscribeSends(s, a, c);
    assert Count(s.engine, KeyOf(c)) + Pending(s.queue, KeyOf(c)) == |Holders(s.held.Keys, KeyOf(c))|;
  }

  lemma {:induction false} PendingHead(q: seq<Entry>, k: Key)
    requires q != []
    ensures Pending(q, k) == Effect(q[0], k) + Pending(q[1..], k)
  {
    var n := |q| - 1;
    if n == 0 {
      assert q[..0] == [] && q[1..] == [];
    } else {
      PendingHead(q[..n], k);
      assert q[..n][1..] == q[1..][..n - 1];
    }
  }

  /** The engine keeps it exactly when it has a client for a subscription, and a count to lower for the opposite. */
  lemma ExecuteBalancedIff(s: System)
    requires Balanced(s) && EngineValid(s.engine) && s.queue != [] && IsCommand(s.queue[0])
    ensures var cmd := CommandOf(s.queue[0]);
            Balanced(Next(s, HandleOne)) <==>
              if cmd.Subscribe? then SelectClient(s.engine, s.venueOf, cmd.channel.id, cmd.client) != ""
              else Count(s.engine, KeyOf(cmd.channel)) > 0
  {
    hide SelectClient, Executed;
    var t, cmd := Next(s, HandleOne), CommandOf(s.queue[0]);
    var key := KeyOf(cmd.channel);
    assert KeyValid(s.engine, key);
    ExecutedCounts(s.engine, s.venueOf, cmd);
    forall k ensures Pending(s.queue, k) == Effect(s.queue[0], k) + Pending(t.queue, k) {
      PendingHead(s.queue, k);
    }
    assert Count(s.engine, key) + Pending(s.queue, key) == |Holders(s.held.Keys, key)|;
  }
}
