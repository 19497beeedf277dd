/** Subscription commands in the data engine: reference counts, pinned clients and the maximum book depth, mirrored by
    what each data client is subscribed to. */
module DataEngines {
  import opened Basics
  import opened Channels

  datatype Command = Subscribe(channel: Channel, client: string, depth: int) | Unsubscribe(channel: Channel)

  // Data clients: the subscriptions of one exchange connection.

  datatype DataClient = DataClient(streams: set<Key>, books: map<string, int>)

  const NO_SUBSCRIPTIONS := DataClient({}, map[])

  predicate Carries(c: DataClient, k: Key) {
    if k.BookKey? then k.id in c.books else k in c.streams
  }

  /** A book already subscribed keeps the larger depth. */
  function ClientSubscribed(c: DataClient, k: Key, depth: int): DataClient {
    if !k.BookKey? then c.(streams := c.streams + {k})
    else if k.id !in c.books || c.books[k.id] < depth then c.(books := c.books[k.id := depth])
    else c
  }

  function ClientUnsubscribed(c: DataClient, k: Key): DataClient {
    if k.BookKey? then c.(books := c.books - {k.id}) else c.(streams := c.streams - {k})
  }

  // The engine.

  datatype Engine = Engine(
    clients: map<string, DataClient>,
    venueToClient: map<string, string>,
    defaultClient: string,
    refcount: map<Key, int>,
    pinned: map<Key, string>,
    activeDepth: map<string, int>,
    depthCounts: map<string, map<int, int>>)

  /** `register_client`: the client object is stored with whatever it is already subscribed to. */
  function RegisteredClient(e: Engine, id: string, venue: string, client: DataClient): Engine {
    e.(defaultClient := if e.defaultClient == "" then id else e.defaultClient,
       clients := e.clients[id := client],
       venueToClient := e.venueToClient[venue := id])
  }

  /** Requested client if it exists, else the client of the instrument's venue, else the default. */
  function SelectClient(e: Engine, venueOf: map<string, string>, id: string, requested: string): (chosen: string)
    ensures chosen == requested || chosen in e.clients || chosen == e.defaultClient
    ensures requested in e.clients && requested != "" ==> chosen == requested
  {
    if requested != "" && requested in e.clients then requested
    else if id != "" && id in venueOf && venueOf[id] in e.venueToClient && e.venueToClient[venueOf[id]] in e.clients
    then e.venueToClient[venueOf[id]]
    else e.defaultClient
  }

  datatype Registration = Registration(id: string, venue: string, client: DataClient)

  function RegisteredAll(regs: seq<Registration>): Engine {
    if regs == [] then Engine(map[], map[], "", map[], map[], map[], map[])
    else
      var n := |regs| - 1;
      RegisteredClient(RegisteredAll(regs[..n]), regs[n].id, regs[n].venue, regs[n].client)
  }

  ghost predicate LastAtVenue(regs: seq<Registration>, i: int, venue: string) {
    0 <= i < |regs| && regs[i].venue == venue && forall j :: i < j < |regs| ==> regs[j].venue != venue
  }

  /** Registration i is the first one with a name; an empty client id does not become the default. */
  ghost predicate FirstNamed(regs: seq<Registration>, i: int) {
    0 <= i < |regs| && regs[i].id != "" && forall j :: 0 <= j < i ==> regs[j].id == ""
  }

  lemma {:induction false} ClientsFollowRegistrations(regs: seq<Registration>)
    ensures RegisteredAll(regs).clients.Keys == set i | 0 <= i < |regs| :: regs[i].id
  {
    if regs != [] {
      var n := |regs| - 1;
      ClientsFollowRegistrations(regs[..n]);
      assert forall i :: 0 <= i < n ==> regs[..n][i] == regs[i];
    }
  }

  lemma {:induction false} DefaultFollowsRegistrations(regs: seq<Registration>)
    ensures forall d :: FirstNamed(regs, d) ==> RegisteredAll(regs).defaultClient == regs[d].id
    ensures (exists d :: FirstNamed(regs, d))
      || (RegisteredAll(regs).defaultClient == "" && forall i :: 0 <= i < |regs| ==> regs[i].id == "")
  {
    if regs != [] {
      var n := |regs| - 1;
      var before := regs[..n];
      DefaultFollowsRegistrations(before);
      assert forall i :: 0 <= i < n ==> before[i] == regs[i];
      assert forall i :: 0 <= i < n ==> (FirstNamed(regs, i) <==> FirstNamed(before, i));
      if d :| FirstNamed(before, d) {
        assert FirstNamed(regs, d);
      } else if regs[n].id != "" {
        assert FirstNamed(regs, n);
      }
    }
  }

  lemma {:induction false} VenuesFollowRegistrations(regs: seq<Registration>, venue: string)
    ensures venue in RegisteredAll(regs).venueToClient <==> exists i :: LastAtVenue(regs, i, venue)
    ensures forall i :: LastAtVenue(regs, i, venue) ==>
      venue in RegisteredAll(regs).venueToClient && RegisteredAll(regs).venueToClient[venue] == regs[i].id
  {
    if regs != [] {
      var n := |regs| - 1;
      VenuesFollowRegistrations(regs[..n], venue);
      LastAtVenueSnoc(regs, venue);
      if i :| LastAtVenue(regs[..n], i, venue) {
        assert regs[..n][i] == regs[i];
        assert venue != regs[n].venue ==> LastAtVenue(regs, i, venue);
      }
    }
  }

  lemma LastAtVenueSnoc(regs: seq<Registration>, venue: string)
    requires regs != []
    ensures var n := |regs| - 1;
            && (LastAtVenue(regs, n, venue) <==> regs[n].venue == venue)
            && forall i :: i != n ==>
                 (LastAtVenue(regs, i, venue) <==> LastAtVenue(regs[..n], i, venue) && regs[n].venue != venue)
  {
    var n := |regs| - 1;
    assert forall i :: 0 <= i < n ==> regs[..n][i] == regs[i];
  }

  /** Routing in terms of registrations: the requested client if it was registered, else the one registered last for the
      instrument's venue, else the first registered under a name. */
  lemma SelectionFollowsRegistrations(regs: seq<Registration>, venueOf: map<string, string>, id: string,
      requested: string)
    ensures var chosen := SelectClient(RegisteredAll(regs), venueOf, id, requested);
            if requested != "" && exists i :: 0 <= i < |regs| && regs[i].id == requested then chosen == requested
            else if id != "" && id in venueOf && exists i :: LastAtVenue(regs, i, venueOf[id])
            then exists i :: LastAtVenue(regs, i, venueOf[id]) && chosen == regs[i].id
            else if exists i :: FirstNamed(regs, i) then exists i :: FirstNamed(regs, i) && chosen == regs[i].id
            else chosen == ""
  {
    ClientsFollowRegistrations(regs);
    DefaultFollowsRegistrations(regs);
    if id in venueOf {
      VenuesFollowRegistrations(regs, venueOf[id]);
    }
    if id in venueOf && exists i :: LastAtVenue(regs, i, venueOf[id]) {
      var i :| LastAtVenue(regs, i, venueOf[id]);
      assert regs[i].id in RegisteredAll(regs).clients;
    }
  }

  function Count(e: Engine, k: Key): int {
    if k in e.refcount then e.refcount[k] else 0
  }

  ghost predicate IsMaxDepth(counts: map<int, int>, m: int) {
    && (forall d :: d in counts && counts[d] > 0 ==> d <= m)
    && m >= 0 && (m == 0 || (m in counts && counts[m] > 0))
  }

  /** The deepest request counted, or 0. */
  ghost function MaxDepth(counts: map<int, int>): (m: int)
    ensures IsMaxDepth(counts, m)
    decreases counts.Keys
  {
    if counts.Keys == {} then 0
    else
      var d := Any(counts.Keys);
      var m := MaxDepth(counts - {d});
      assert forall x :: x in counts && x != d ==> x in counts - {d};
      if counts[d] > 0 && d > m then d else m
  }

  function DepthCounts(e: Engine, id: string): map<int, int> {
    if id in e.depthCounts then e.depthCounts[id] else map[]
  }

  function Counted(counts: map<int, int>, depth: int): map<int, int> {
    counts[depth := (if depth in counts then counts[depth] else 0) + 1]
  }

  function SubscribeAt(e: Engine, client: string, k: Key, depth: int): Engine {
    if client in e.clients then e.(clients := e.clients[client := ClientSubscribed(e.clients[client], k, depth)]) else e
  }

  function UnsubscribeAt(e: Engine, client: string, k: Key): Engine {
    if client in e.clients then e.(clients := e.clients[client := ClientUnsubscribed(e.clients[client], k)]) else e
  }

  function StreamSubscribed(e: Engine, k: Key, chosen: string): Engine {
    var n := Count(e, k) + 1;
    var counted := e.(refcount := e.refcount[k := n]);
    if n == 1 then SubscribeAt(counted.(pinned := e.pinned[k := chosen]), chosen, k, 0) else counted
  }

  /** The engine's own entries for one more book subscription. */
  ghost function BookCounted(e: Engine, k: Key, chosen: string, depth: int): Engine
    requires k.BookKey?
  {
    var n, counts := Count(e, k) + 1, Counted(DepthCounts(e, k.id), depth);
    var deepest := MaxDepth(counts);
    e.(refcount := e.refcount[k := n],
       pinned := if n == 1 then e.pinned[k := chosen] else e.pinned,
       activeDepth := e.activeDepth[k.id := if n == 1 || deepest > ActiveDepth(e, k.id) then deepest
         else ActiveDepth(e, k.id)],
       depthCounts := e.depthCounts[k.id := counts])
  }

  /** The first subscription opens the book at the client; a deeper one closes and reopens it. */
  ghost function BookSubscribed(e: Engine, k: Key, chosen: string, depth: int): Engine
    requires k.BookKey?
  {
    var counted := BookCounted(e, k, chosen, depth);
    var active := counted.activeDepth[k.id];
    if Count(e, k) + 1 == 1 then SubscribeAt(counted, chosen, k, active)
    else if active > ActiveDepth(e, k.id) && k in e.pinned then
      SubscribeAt(UnsubscribeAt(counted, e.pinned[k], k), e.pinned[k], k, active)
    else counted
  }

  function ActiveDepth(e: Engine, id: string): int {
    if id in e.activeDepth then e.activeDepth[id] else 0
  }

  /** The last unsubscription closes the stream at the pinned client and forgets the key. */
  function KeyUnsubscribed(e: Engine, k: Key): Engine
    requires k in e.refcount
  {
    if e.refcount[k] != 1 then e.(refcount := e.refcount[k := e.refcount[k] - 1])
    else
      var closed := if k in e.pinned then UnsubscribeAt(e, e.pinned[k], k) else e;
      Forgotten(closed, k)
  }

  function Forgotten(e: Engine, k: Key): Engine {
    e.(refcount := e.refcount - {k}, pinned := e.pinned - {k},
       activeDepth := if k.BookKey? then e.activeDepth - {k.id} else e.activeDepth,
       depthCounts := if k.BookKey? then e.depthCounts - {k.id} else e.depthCounts)
  }

  ghost function Executed(e: Engine, venueOf: map<string, string>, cmd: Command): Engine {
    var k := KeyOf(cmd.channel);
    match cmd
    case Subscribe(channel, client, depth) =>
      var chosen := SelectClient(e, venueOf, channel.id, client);
      if chosen == "" then e
      else if k.BookKey? then BookSubscribed(e, k, chosen, depth)
      else StreamSubscribed(e, k, chosen)
    case Unsubscribe(_) =>
      if Count(e, k) <= 0 then e else KeyUnsubscribed(e, k)
  }

  // What every command keeps.

  /** A key is counted, pinned and carried together: by the pinned client and no other. */
  ghost predicate KeyValid(e: Engine, k: Key) {
    && (k in e.pinned <==> k in e.refcount)
    && (k in e.refcount ==> e.refcount[k] >= 1 && e.pinned[k] in e.clients && e.pinned[k] != "")
    && (forall c :: c in e.clients ==> (Carries(e.clients[c], k) <==> k in e.pinned && e.pinned[k] == c))
    && (k.BookKey? ==> BookValid(e, k))
  }

  /** The active depth of a book is the deepest counted request, and the pinned client's depth. */
  ghost predicate BookValid(e: Engine, k: Key)
    requires k.BookKey? && (k in e.pinned <==> k in e.refcount)
    requires k in e.pinned ==> e.pinned[k] in e.clients && Carries(e.clients[e.pinned[k]], k)
  {
    && (k.id in e.activeDepth <==> k in e.refcount)
    && (k.id in e.depthCounts <==> k in e.refcount)
    && (k in e.refcount ==>
         && (forall d :: d in e.depthCounts[k.id] ==> e.depthCounts[k.id][d] > 0)
         && IsMaxDepth(e.depthCounts[k.id], e.activeDepth[k.id])
         && e.clients[e.pinned[k]].books[k.id] == e.activeDepth[k.id])
  }

  ghost predicate Routable(e: Engine) {
    && (forall v :: v in e.venueToClient ==> e.venueToClient[v] in e.clients)
    && (e.defaultClient != "" ==> e.defaultClient in e.clients)
  }

  ghost predicate EngineValid(e: Engine) {
    Routable(e) && forall k :: KeyValid(e, k)
  }

  /** Nothing about the key differs. */
  ghost predicate SameAt(e: Engine, f: Engine, k: Key) {
    && (k in e.refcount <==> k in f.refcount) && (k in e.refcount ==> e.refcount[k] == f.refcount[k])
    && (k in e.pinned <==> k in f.pinned) && (k in e.pinned ==> e.pinned[k] == f.pinned[k])
    && e.clients.Keys == f.clients.Keys
    && (forall c :: c in e.clients ==> SameCarried(e.clients[c], f.clients[c], k))
    && (k.BookKey? ==>
         && (k.id in e.activeDepth <==> k.id in f.activeDepth)
         && (k.id in e.activeDepth ==> e.activeDepth[k.id] == f.activeDepth[k.id])
         && (k.id in e.depthCounts <==> k.id in f.depthCounts)
         && (k.id in e.depthCounts ==> e.depthCounts[k.id] == f.depthCounts[k.id]))
  }

  predicate SameCarried(c: DataClient, d: DataClient, k: Key) {
    (Carries(c, k) <==> Carries(d, k)) && (k.BookKey? && Carries(c, k) ==> c.books[k.id] == d.books[k.id])
  }

  lemma SameKeepsValid(e: Engine, f: Engine, k: Key)
    requires SameAt(e, f, k) && KeyValid(e, k)
    ensures KeyValid(f, k)
  {
    forall c | c in f.clients ensures Carries(f.clients[c], k) <==> k in f.pinned && f.pinned[k] == c {
      assert SameCarried(e.clients[c], f.clients[c], k);
    }
    if k in f.pinned {
      assert SameCarried(e.clients[e.pinned[k]], f.clients[e.pinned[k]], k);
    }
  }

  lemma ClientOthers(c: DataClient, k: Key, depth: int, j: Key)
    requires j != k
    ensures SameCarried(c, ClientSubscribed(c, k, depth), j) && SameCarried(c, ClientUnsubscribed(c, k), j)
    ensures SameCarried(c, ClientSubscribed(ClientUnsubscribed(c, k), k, depth), j)
  {
  }

  lemma SameTransitive(e: Engine, f: Engine, g: Engine, k: Key)
    requires SameAt(e, f, k) && SameAt(f, g, k)
    ensures SameAt(e, g, k)
  {
    forall c | c in e.clients ensures SameCarried(e.clients[c], g.clients[c], k) {
      assert SameCarried(e.clients[c], f.clients[c], k) && SameCarried(f.clients[c], g.clients[c], k);
    }
  }

  lemma SameCarriedReflexive(c: DataClient, k: Key)
    ensures SameCarried(c, c, k)
  {
  }

  lemma SameReflexive(e: Engine, k: Key)
    ensures SameAt(e, e, k)
  {
    hide SameCarried;
    forall c | c in e.clients ensures SameCarried(e.clients[c], e.clients[c], k) {
      SameCarriedReflexive(e.clients[c], k);
    }
  }

  lemma AtClientOthers(e: Engine, client: string, k: Key, depth: int, j: Key)
    requires j != k
    ensures SameAt(e, SubscribeAt(e, client, k, depth), j) && SameAt(e, UnsubscribeAt(e, client, k), j)
  {
    hide SameCarried, ClientSubscribed, ClientUnsubscribed;
    SameReflexive(e, j);
    if client in e.clients {
      ClientOthers(e.clients[client], k, depth, j);
    }
  }

  /** Counting and pinning a key changes nothing about the others. */
  lemma EntriesOthers(e: Engine, k: Key, n: int, chosen: string, j: Key)
    requires j != k
    ensures SameAt(e, e.(refcount := e.refcount[k := n]), j)
    ensures SameAt(e, e.(refcount := e.refcount[k := n], pinned := e.pinned[k := chosen]), j)
  {
    hide SameCarried;
    SameReflexive(e, j);
  }

  lemma ForgottenOthers(e: Engine, k: Key, j: Key)
    requires j != k
    ensures SameAt(e, Forgotten(e, k), j)
  {
    hide SameCarried;
    SameReflexive(e, j);
  }

  /** Opening or reopening a book at a client, once the engine's own entries of the key are written. */
  lemma OpenOthers(e: Engine, f: Engine, client: string, k: Key, depth: int, j: Key)
    requires j != k && SameAt(e, f, j)
    ensures SameAt(e, SubscribeAt(f, client, k, depth), j)
    ensures SameAt(e, SubscribeAt(UnsubscribeAt(f, client, k), client, k, depth), j)
  {
    var closed := UnsubscribeAt(f, client, k);
    AtClientOthers(f, client, k, depth, j);
    SameTransitive(e, f, SubscribeAt(f, client, k, depth), j);
    SameTransitive(e, f, closed, j);
    AtClientOthers(closed, client, k, depth, j);
    SameTransitive(e, closed, SubscribeAt(closed, client, k, depth), j);
  }

  lemma StreamSubscribedOthers(e: Engine, k: Key, chosen: string, j: Key)
    requires !k.BookKey? && j != k
    ensures SameAt(e, StreamSubscribed(e, k, chosen), j)
  {
    hide SameAt, SubscribeAt;
    var n := Count(e, k) + 1;
    EntriesOthers(e, k, n, chosen, j);
    OpenOthers(e, e.(refcount := e.refcount[k := n], pinned := e.pinned[k := chosen]), chosen, k, 0, j);
  }

  lemma BookCountedOthers(e: Engine, k: Key, chosen: string, depth: int, j: Key)
    requires k.BookKey? && j != k
    ensures SameAt(e, BookCounted(e, k, chosen, depth), j)
  {
  }

  lemma BookSubscribedOthers(e: Engine, k: Key, chosen: string, depth: int, j: Key)
    requires k.BookKey? && j != k
    ensures SameAt(e, BookSubscribed(e, k, chosen, depth), j)
  {
    var counted := BookCounted(e, k, chosen, depth);
    var active := counted.activeDepth[k.id];
    BookCountedOthers(e, k, chosen, depth, j);
    OpenOthers(e, counted, chosen, k, active, j);
    if k in e.pinned {
      OpenOthers(e, counted, e.pinned[k], k, active, j);
    }
  }

  lemma KeyUnsubscribedOthers(e: Engine, k: Key, j: Key)
    requires k in e.refcount && j != k
    ensures SameAt(e, KeyUnsubscribed(e, k), j)
  {
    hide SameAt, UnsubscribeAt, Forgotten;
    EntriesOthers(e, k, e.refcount[k] - 1, "", j);
    ForgottenOthers(e, k, j);
    if e.refcount[k] == 1 && k in e.pinned {
      var closed := UnsubscribeAt(e, e.pinned[k], k);
      AtClientOthers(e, e.pinned[k], k, 0, j);
      ForgottenOthers(closed, k, j);
      SameTransitive(e, closed, Forgotten(closed, k), j);
    }
  }

  lemma StreamSubscribedValid(e: Engine, k: Key, chosen: string)
    requires KeyValid(e, k) && !k.BookKey? && chosen in e.clients && chosen != ""
    ensures KeyValid(StreamSubscribed(e, k, chosen), k)
  {
  }

  lemma BookSubscribedValid(e: Engine, k: Key, chosen: string, depth: int)
    requires KeyValid(e, k) && k.BookKey? && chosen in e.clients && chosen != ""
    ensures KeyValid(BookSubscribed(e, k, chosen, depth), k)
  {
  }

  lemma KeyUnsubscribedValid(e: Engine, k: Key)
    requires KeyValid(e, k) && k in e.refcount
    ensures KeyValid(KeyUnsubscribed(e, k), k)
  {
  }

  lemma ExecutedOthers(e: Engine, venueOf: map<string, string>, cmd: Command, j: Key)
    requires j != KeyOf(cmd.channel)
    ensures SameAt(e, Executed(e, venueOf, cmd), j)
  {
    var k := KeyOf(cmd.channel);
    match cmd {
      case Subscribe(channel, client, depth) =>
        var chosen := SelectClient(e, venueOf, channel.id, client);
        if k.BookKey? {
          BookSubscribedOthers(e, k, chosen, depth, j);
        } else {
          StreamSubscribedOthers(e, k, chosen, j);
        }
      case Unsubscribe(_) =>
        if Count(e, k) > 0 {
          KeyUnsubscribedOthers(e, k, j);
        }
    }
  }

  lemma ExecutedKey(e: Engine, venueOf: map<string, string>, cmd: Command)
    requires Routable(e) && KeyValid(e, KeyOf(cmd.channel))
    ensures KeyValid(Executed(e, venueOf, cmd), KeyOf(cmd.channel))
  {
    var k := KeyOf(cmd.channel);
    match cmd {
      case Subscribe(channel, client, depth) =>
        var chosen := SelectClient(e, venueOf, channel.id, client);
        if chosen != "" {
          if k.BookKey? {
            BookSubscribedValid(e, k, chosen, depth);
          } else {
            StreamSubscribedValid(e, k, chosen);
          }
        }
      case Unsubscribe(_) =>
        if Count(e, k) > 0 {
          KeyUnsubscribedValid(e, k);
        }
    }
  }

  /** Talking to a client changes nothing in the engine but that client. */
  lemma AtClientOnly(e: Engine, client: string, k: Key, depth: int)
    ensures SameEngine(e, SubscribeAt(e, client, k, depth)) && SameEngine(e, UnsubscribeAt(e, client, k))
  {
  }

  predicate SameEngine(e: Engine, f: Engine) {
    f.(clients := e.clients) == e && f.clients.Keys == e.clients.Keys
  }

  lemma BookSubscribedOnly(e: Engine, k: Key, chosen: string, depth: int)
    requires k.BookKey?
    ensures SameEngine(BookCounted(e, k, chosen, depth), BookSubscribed(e, k, chosen, depth))
  {
    var counted := BookCounted(e, k, chosen, depth);
    var active := counted.activeDepth[k.id];
    AtClientOnly(counted, chosen, k, active);
    if k in e.pinned {
      AtClientOnly(counted, e.pinned[k], k, active);
      AtClientOnly(UnsubscribeAt(counted, e.pinned[k], k), e.pinned[k], k, active);
    }
  }

  predicate SameRoutes(e: Engine, f: Engine) {
    f.defaultClient == e.defaultClient && f.clients.Keys == e.clients.Keys && f.venueToClient == e.venueToClient
  }

  lemma StreamSubscribedCounts(e: Engine, k: Key, chosen: string)
    ensures var f := StreamSubscribed(e, k, chosen); f.refcount == e.refcount[k := Count(e, k) + 1] && SameRoutes(e, f)
  {
    hide SubscribeAt;
    AtClientOnly(e.(refcount := e.refcount[k := Count(e, k) + 1], pinned := e.pinned[k := chosen]), chosen, k, 0);
  }

  lemma BookSubscribedCounts(e: Engine, k: Key, chosen: string, depth: int)
    requires k.BookKey?
    ensures var f := BookSubscribed(e, k, chosen, depth);
            && f.refcount == e.refcount[k := Count(e, k) + 1]
            && SameRoutes(e, f)
  {
    BookSubscribedOnly(e, k, chosen, depth);
  }

  lemma KeyUnsubscribedCounts(e: Engine, k: Key)
    requires k in e.refcount
    ensures var f := KeyUnsubscribed(e, k);
            && f.refcount == (if e.refcount[k] == 1 then e.refcount - {k} else e.refcount[k := e.refcount[k] - 1])
            && SameRoutes(e, f)
  {
    if k in e.pinned {
      AtClientOnly(e, e.pinned[k], k, 0);
    }
  }

  /** A command moves at most the count of its own key: up by one when a client is available, down by one unless
      zero. */
  lemma ExecutedCounts(e: Engine, venueOf: map<string, string>, cmd: Command)
    requires Count(e, KeyOf(cmd.channel)) >= 0
    ensures var k, f := KeyOf(cmd.channel), Executed(e, venueOf, cmd);
            && (forall j :: j != k ==> Count(f, j) == Count(e, j))
            && Count(f, k) ==
                 (if cmd.Unsubscribe? then (if Count(e, k) > 0 then Count(e, k) - 1 else 0)
                  else if SelectClient(e, venueOf, cmd.channel.id, cmd.client) == "" then Count(e, k)
                  else Count(e, k) + 1)
            && SameRoutes(e, f)
  {
    var k := KeyOf(cmd.channel);
    match cmd {
      case Subscribe(channel, client, depth) =>
        var chosen := SelectClient(e, venueOf, channel.id, client);
        StreamSubscribedCounts(e, k, chosen);
        if k.BookKey? {
          BookSubscribedCounts(e, k, chosen, depth);
        }
      case Unsubscribe(_) =>
        if Count(e, k) > 0 {
          KeyUnsubscribedCounts(e, k);
        }
    }
  }

  /** Every command keeps the engine valid. */
  lemma ExecutedValid(e: Engine, venueOf: map<string, string>, cmd: Command)
    requires EngineValid(e)
    ensures EngineValid(Executed(e, venueOf, cmd))
  {
    var f := Executed(e, venueOf, cmd);
    assert KeyValid(e, KeyOf(cmd.channel));
    ExecutedCounts(e, venueOf, cmd);
    forall j ensures KeyValid(f, j) {
      assert KeyValid(e, j);
      if j != KeyOf(cmd.channel) {
        ExecutedOthers(e, venueOf, cmd, j);
        SameKeepsValid(e, f, j);
      } else {
        ExecutedKey(e, venueOf, cmd);
      }
    }
  }

  /** The client carries the key exactly if it is pinned to this id, a book at its active depth. */
  ghost predicate FitsAt(e: Engine, id: string, client: DataClient, k: Key) {
    && (Carries(client, k) <==> k in e.pinned && e.pinned[k] == id)
    && (k.BookKey? && k.id in client.books ==> k.id in e.activeDepth && client.books[k.id] == e.activeDepth[k.id])
  }

  ghost predicate Fits(e: Engine, id: string, client: DataClient) {
    forall k :: FitsAt(e, id, client, k)
  }

  /** Storing a client under an id, new or in use, keeps the engine valid exactly when the client fits what is pinned
      there. */
  lemma RegisterKeepsValidIff(e: Engine, id: string, venue: string, client: DataClient)
    requires EngineValid(e)
    ensures EngineValid(RegisteredClient(e, id, venue, client)) <==> Fits(e, id, client)
  {
    hide FitsAt, KeyValid;
    forall k ensures KeyValid(RegisteredClient(e, id, venue, client), k) <==> FitsAt(e, id, client, k) {
      assert KeyValid(e, k);
      RegisterAtKey(e, id, venue, client, k);
    }
  }

  lemma RegisterAtKey(e: Engine, id: string, venue: string, client: DataClient, k: Key)
    requires KeyValid(e, k)
    ensures KeyValid(RegisteredClient(e, id, venue, client), k) <==> FitsAt(e, id, client, k)
  {
    var f := RegisteredClient(e, id, venue, client);
    assert f.clients[id] == client;
  }

  /** So the registered object may be registered again, and a new id may be given to a client without subscriptions. */
  lemma UsualRegistrationsFit(e: Engine, id: string)
    requires EngineValid(e)
    ensures id in e.clients ==> Fits(e, id, e.clients[id])
    ensures id !in e.clients ==> Fits(e, id, NO_SUBSCRIPTIONS)
  {
    forall k
      ensures id in e.clients ==> FitsAt(e, id, e.clients[id], k)
      ensures id !in e.clients ==> FitsAt(e, id, NO_SUBSCRIPTIONS, k)
    {
      assert KeyValid(e, k);
    }
  }

  // The depth protocol over runs of commands.

  /** A command is executed, with the instruments cached at the time, or a client is registered. */
  datatype EngineStep = Execute(venueOf: map<string, string>, command: Command) | Register(registration: Registration)

  ghost function Stepped(e: Engine, s: EngineStep): Engine {
    match s
    case Execute(venueOf, cmd) => Executed(e, venueOf, cmd)
    case Register(r) => RegisteredClient(e, r.id, r.venue, r.client)
  }

  ghost function SteppedAll(e: Engine, steps: seq<EngineStep>): Engine {
    if steps == [] then e else Stepped(SteppedAll(e, steps[..|steps| - 1]), steps[|steps| - 1])
  }

  /** Clients registered on the way fit what is pinned to their ids. */
  ghost predicate FittingRun(e: Engine, steps: seq<EngineStep>) {
    forall i :: 0 <= i < |steps| && steps[i].Register? ==>
      Fits(SteppedAll(e, steps[..i]), steps[i].registration.id, steps[i].registration.client)
  }

  predicate Concerns(s: EngineStep, k: Key) {
    s.Execute? && KeyOf(s.command.channel) == k
  }

  /** A subscription without a client is ignored: none is registered yet, or the one it leads to has no name. */
  predicate FindsClient(e: Engine, s: EngineStep)
    requires s.Execute? && s.command.Subscribe?
  {
    SelectClient(e, s.venueOf, s.command.channel.id, s.command.client) != ""
  }

  /** Subscriptions of a key that found a client and are not yet matched by an unsubscription; one too many is
      ignored. */
  ghost function Outstanding(e: Engine, steps: seq<EngineStep>, k: Key): nat {
    if steps == [] then 0
    else
      var n := |steps| - 1;
      OutstandingAfter(Outstanding(e, steps[..n], k), SteppedAll(e, steps[..n]), steps[n], k)
  }

  function OutstandingAfter(before: nat, e: Engine, s: EngineStep, k: Key): nat {
    if !Concerns(s, k) then before
    else if s.command.Subscribe? then (if FindsClient(e, s) then before + 1 else before)
    else if before > 0 then before - 1 else 0
  }

  /** Depths requested for a book, with a client found, since it was last subscribed for the first time. */
  ghost function Requests(e: Engine, steps: seq<EngineStep>, k: Key): seq<int> {
    if steps == [] then []
    else
      var n := |steps| - 1;
      RequestsAfter(Requests(e, steps[..n], k), Outstanding(e, steps[..n], k), SteppedAll(e, steps[..n]), steps[n], k)
  }

  function RequestsAfter(requests: seq<int>, before: nat, e: Engine, s: EngineStep, k: Key): seq<int> {
    if !Concerns(s, k) then requests
    else if s.command.Subscribe? then
      (if !FindsClient(e, s) then requests else (if before == 0 then [] else requests) + [s.command.depth])
    else if before <= 1 then [] else requests
  }

  /** The client selected by the subscription that began the current outstanding ones. */
  ghost function FirstClient(e: Engine, steps: seq<EngineStep>, k: Key): string {
    if steps == [] then ""
    else
      var n := |steps| - 1;
      FirstClientAfter(FirstClient(e, steps[..n], k), Outstanding(e, steps[..n], k), SteppedAll(e, steps[..n]),
        steps[n], k)
  }

  function FirstClientAfter(first: string, before: nat, e: Engine, s: EngineStep, k: Key): string {
    if Concerns(s, k) && s.command.Subscribe? && before == 0 && FindsClient(e, s)
    then SelectClient(e, s.venueOf, s.command.channel.id, s.command.client)
    else first
  }

  ghost predicate IsDeepest(requests: seq<int>, depth: int) {
    && depth >= 0 && (forall d :: d in requests ==> d <= depth)
    && (depth == 0 || depth in requests)
  }

  /** How often a depth is counted for a book. */
  function DepthCount(e: Engine, id: string, depth: int): int {
    if depth in DepthCounts(e, id) then DepthCounts(e, id)[depth] else 0
  }

  /** The requested depths are the ones counted since the first current subscription. */
  lemma ExecutedCountsDepths(e: Engine, venueOf: map<string, string>, cmd: Command)
    requires KeyOf(cmd.channel).BookKey? && KeyValid(e, KeyOf(cmd.channel))
    requires cmd.Subscribe? ==> SelectClient(e, venueOf, cmd.channel.id, cmd.client) != ""
    ensures var k, f := KeyOf(cmd.channel), Executed(e, venueOf, cmd);
            DepthCounts(f, k.id).Keys ==
              if cmd.Subscribe? then DepthCounts(e, k.id).Keys + {cmd.depth}
              else if Count(f, k) == 0 then {} else DepthCounts(e, k.id).Keys
    ensures var k, f := KeyOf(cmd.channel), Executed(e, venueOf, cmd);
            forall d :: DepthCount(f, k.id, d) ==
              if cmd.Subscribe? then DepthCount(e, k.id, d) + (if d == cmd.depth then 1 else 0)
              else if Count(f, k) == 0 then 0 else DepthCount(e, k.id, d)
  {
  }

  /** The book is open at its pinned client, and at no other, at the deepest of these requests. */
  ghost predicate OpenAtDeepest(e: Engine, k: Key, requests: seq<int>) {
    && k.BookKey? && k in e.pinned && e.pinned[k] in e.clients && k.id in e.activeDepth
    && IsDeepest(requests, e.activeDepth[k.id])
    && (forall c :: c in e.clients ==> (k.id in e.clients[c].books <==> c == e.pinned[k]))
    && e.clients[e.pinned[k]].books[k.id] == e.activeDepth[k.id]
  }

  lemma CountedIsOpen(e: Engine, k: Key, requests: seq<int>)
    requires KeyValid(e, k) && k.BookKey? && Count(e, k) > 0
    requires forall d :: d in DepthCounts(e, k.id) <==> d in requests
    ensures OpenAtDeepest(e, k, requests)
  {
  }

  /** A first subscription pins the client selected for it; later ones leave the pin, and so do unsubscriptions but the
      last. */
  lemma ExecutedPins(e: Engine, venueOf: map<string, string>, cmd: Command)
    requires KeyValid(e, KeyOf(cmd.channel))
    ensures var k, f := KeyOf(cmd.channel), Executed(e, venueOf, cmd);
            && (cmd.Subscribe? && SelectClient(e, venueOf, cmd.channel.id, cmd.client) != "" ==>
                 && k in f.pinned
                 && f.pinned[k] == if Count(e, k) == 0 then SelectClient(e, venueOf, cmd.channel.id, cmd.client)
                      else e.pinned[k])
            && (cmd.Unsubscribe? && Count(e, k) > 1 ==> k in f.pinned && f.pinned[k] == e.pinned[k])
  {
    hide SelectClient, Carries, BookValid;
    var k := KeyOf(cmd.channel);
    match cmd {
      case Subscribe(channel, client, depth) =>
        var chosen := SelectClient(e, venueOf, channel.id, client);
        StreamSubscribedPins(e, k, chosen);
        if k.BookKey? {
          BookSubscribedOnly(e, k, chosen, depth);
        }
      case Unsubscribe(_) =>
    }
  }

  lemma StreamSubscribedPins(e: Engine, k: Key, chosen: string)
    ensures StreamSubscribed(e, k, chosen).pinned == if Count(e, k) == 0 then e.pinned[k := chosen] else e.pinned
  {
    hide SubscribeAt;
    AtClientOnly(e.(refcount := e.refcount[k := Count(e, k) + 1], pinned := e.pinned[k := chosen]), chosen, k, 0);
  }

  /** The count, the counted depths and the pin of a key. */
  ghost predicate Follows(e: Engine, outstanding: nat, requests: seq<int>, first: string, k: Key) {
    && Count(e, k) == outstanding
    && (k.BookKey? ==> CountsAre(e, k.id, requests))
    && (outstanding > 0 ==> k in e.pinned && e.pinned[k] == first)
  }

  /** The counted depths of a book are these, each as often as it was requested. */
  ghost predicate CountsAre(e: Engine, id: string, requests: seq<int>) {
    && (forall d :: d in DepthCounts(e, id) <==> d in requests)
    && forall d :: DepthCount(e, id, d) == multiset(requests)[d]
  }

  lemma CountsStep(e: Engine, outstanding: nat, requests: seq<int>, s: EngineStep, k: Key)
    requires KeyValid(e, k) && k.BookKey? && Concerns(s, k) && (s.command.Subscribe? ==> FindsClient(e, s))
    requires Count(e, k) == outstanding && CountsAre(e, k.id, requests)
    requires Count(Stepped(e, s), k) == OutstandingAfter(outstanding, e, s, k)
    ensures CountsAre(Stepped(e, s), k.id, RequestsAfter(requests, outstanding, e, s, k))
  {
    hide Executed, SelectClient;
    ExecutedCountsDepths(e, s.venueOf, s.command);
    if s.command.Subscribe? {
      var before := if outstanding == 0 then [] else requests;
      assert forall d :: d in before + [s.command.depth] <==> d in before || d == s.command.depth;
      assert multiset(before + [s.command.depth]) == multiset(before) + multiset([s.command.depth]);
    }
  }

  lemma RegisterKeepsCounts(e: Engine, r: Registration, id: string, requests: seq<int>)
    requires CountsAre(e, id, requests)
    ensures CountsAre(RegisteredClient(e, r.id, r.venue, r.client), id, requests)
  {
    assert forall d :: DepthCount(RegisteredClient(e, r.id, r.venue, r.client), id, d) == DepthCount(e, id, d);
  }

  lemma SameCounts(e: Engine, f: Engine, id: string, requests: seq<int>)
    requires SameAt(e, f, BookKey(id)) && CountsAre(e, id, requests)
    ensures CountsAre(f, id, requests)
  {
    assert forall d :: DepthCount(f, id, d) == DepthCount(e, id, d);
  }

  lemma FollowsStep(e: Engine, outstanding: nat, requests: seq<int>, first: string, s: EngineStep, k: Key)
    requires EngineValid(e) && Follows(e, outstanding, requests, first, k)
    ensures Follows(Stepped(e, s), OutstandingAfter(outstanding, e, s, k),
      RequestsAfter(requests, outstanding, e, s, k),
                    FirstClientAfter(first, outstanding, e, s, k), k)
  {
    hide Executed, SelectClient, CountsAre;
    assert KeyValid(e, k);
    if s.Register? {
      if k.BookKey? {
        RegisterKeepsCounts(e, s.registration, k.id, requests);
      }
    } else {
      var venueOf, cmd := s.venueOf, s.command;
      assert KeyValid(e, KeyOf(cmd.channel));
      ExecutedCounts(e, venueOf, cmd);
      if cmd.Subscribe? && !FindsClient(e, s) {
        IgnoredWithoutClient(e, venueOf, cmd);
      } else if KeyOf(cmd.channel) != k {
        ExecutedOthers(e, venueOf, cmd, k);
        if k.BookKey? {
          SameCounts(e, Executed(e, venueOf, cmd), k.id, requests);
        }
      } else {
        ExecutedPins(e, venueOf, cmd);
        if k.BookKey? {
          CountsStep(e, outstanding, requests, s, k);
        }
      }
    }
  }

  lemma IgnoredWithoutClient(e: Engine, venueOf: map<string, string>, cmd: Command)
    requires cmd.Subscribe? && SelectClient(e, venueOf, cmd.channel.id, cmd.client) == ""
    ensures Executed(e, venueOf, cmd) == e
  {
  }

  lemma StepKeepsValid(e: Engine, s: EngineStep)
    requires EngineValid(e) && (s.Register? ==> Fits(e, s.registration.id, s.registration.client))
    ensures EngineValid(Stepped(e, s))
  {
    match s {
      case Execute(venueOf, cmd) =>
        ExecutedValid(e, venueOf, cmd);
      case Register(r) =>
        RegisterKeepsValidIff(e, r.id, r.venue, r.client);
    }
  }

  /** While a key has outstanding subscriptions the client selected by the first of them, and no other, carries it. */
  ghost predicate CarriedByFirst(e: Engine, outstanding: nat, first: string, k: Key) {
    if outstanding == 0 then forall c :: c in e.clients ==> !Carries(e.clients[c], k)
    else
      && k in e.pinned && e.pinned[k] == first && first in e.clients
      && forall c :: c in e.clients ==> (Carries(e.clients[c], k) <==> c == first)
  }

  lemma FollowsIsCarried(e: Engine, outstanding: nat, requests: seq<int>, first: string, k: Key)
    requires KeyValid(e, k) && Follows(e, outstanding, requests, first, k)
    ensures CarriedByFirst(e, outstanding, first, k)
  {
  }

  /** Over every run from a fresh engine, clients registered before or on the way: the counts are the outstanding
      subscriptions that found a client; a key that has any is carried by the client selected by the first of them, and
      by no other; a book is open there at the deepest request since. */
  lemma {:induction false} DepthProtocol(e: Engine, steps: seq<EngineStep>, k: Key)
    requires EngineValid(e) && e.refcount == map[] && FittingRun(e, steps)
    ensures var f, outstanding, requests := SteppedAll(e, steps), Outstanding(e, steps, k), Requests(e, steps, k);
            && EngineValid(f) && Count(f, k) == outstanding
            && Follows(f, outstanding, requests, FirstClient(e, steps, k), k)
            && CarriedByFirst(f, outstanding, FirstClient(e, steps, k), k)
            && (k.BookKey? && outstanding > 0 ==> OpenAtDeepest(f, k, requests))
  {
    hide Stepped, OpenAtDeepest, Fits, OutstandingAfter, RequestsAfter, FirstClientAfter, CarriedByFirst;
    var f := SteppedAll(e, steps);
    if steps != [] {
      var n := |steps| - 1;
      var before := SteppedAll(e, steps[..n]);
      assert forall i :: 0 <= i < n ==> steps[..n][i] == steps[i] && steps[..n][..i] == steps[..i];
      DepthProtocol(e, steps[..n], k);
      StepKeepsValid(before, steps[n]);
      FollowsStep(before, Outstanding(e, steps[..n], k), Requests(e, steps[..n], k), FirstClient(e, steps[..n], k),
        steps[n], k);
    }
    assert KeyValid(f, k);
    FollowsIsCarried(f, Outstanding(e, steps, k), Requests(e, steps, k), FirstClient(e, steps, k), k);
    if k.BookKey? && Outstanding(e, steps, k) > 0 {
      CountedIsOpen(f, k, Requests(e, steps, k));
    }
  }

  function RegistrationsIn(steps: seq<EngineStep>): seq<Registration> {
    if steps == [] then []
    else
      var n := |steps| - 1;
      RegistrationsIn(steps[..n]) + (if steps[n].Register? then [steps[n].registration] else [])
  }

  /** Commands do not change routing: at every point of a run a client is selected as the registrations so far say. */
  lemma {:induction false} RunSelectsByRegistrations(steps: seq<EngineStep>)
    requires FittingRun(RegisteredAll([]), steps)
    ensures EngineValid(SteppedAll(RegisteredAll([]), steps))
    ensures SameRoutes(RegisteredAll(RegistrationsIn(steps)), SteppedAll(RegisteredAll([]), steps))
  {
    hide Stepped, Fits, EngineValid;
    if steps == [] {
      FreshIsValid();
    } else {
      var n := |steps| - 1;
      var before := SteppedAll(RegisteredAll([]), steps[..n]);
      assert forall i :: 0 <= i < n ==> steps[..n][i] == steps[i] && steps[..n][..i] == steps[..i];
      RunSelectsByRegistrations(steps[..n]);
      StepKeepsValid(before, steps[n]);
      if steps[n].Register? {
        RegisteredSnoc(RegistrationsIn(steps[..n]), steps[n]);
      } else {
        assert RegistrationsIn(steps) == RegistrationsIn(steps[..n]);
      }
      StepRoutes(before, RegisteredAll(RegistrationsIn(steps[..n])), steps[n]);
    }
  }

  lemma FreshIsValid()
    ensures EngineValid(RegisteredAll([]))
  {
  }

  lemma RegisteredSnoc(regs: seq<Registration>, s: EngineStep)
    requires s.Register?
    ensures var r := s.registration;
            RegisteredAll(regs + [r]) == RegisteredClient(RegisteredAll(regs), r.id, r.venue, r.client)
  {
    assert (regs + [s.registration])[..|regs|] == regs;
  }

  lemma StepRoutes(e: Engine, f: Engine, s: EngineStep)
    requires EngineValid(e) && SameRoutes(f, e)
    ensures s.Execute? ==> SameRoutes(f, Stepped(e, s))
    ensures s.Register? ==>
      SameRoutes(RegisteredClient(f, s.registration.id, s.registration.venue, s.registration.client), Stepped(e, s))
  {
    hide Executed;
    if s.Execute? {
      assert KeyValid(e, KeyOf(s.command.channel));
      ExecutedCounts(e, s.venueOf, s.command);
    }
  }

  lemma RoutesSelect(e: Engine, f: Engine, venueOf: map<string, string>, id: string, requested: string)
    requires SameRoutes(e, f)
    ensures SelectClient(e, venueOf, id, requested) == SelectClient(f, venueOf, id, requested)
  {
  }

  /** Once a client has a name, and as long as all have one, every subscription finds one. */
  lemma {:induction false} NamedClientsAreFound(e: Engine, steps: seq<EngineStep>, s: EngineStep)
    requires EngineValid(e) && FittingRun(e, steps) && e.defaultClient != "" && "" !in e.clients
    requires forall i :: 0 <= i < |steps| && steps[i].Register? ==> steps[i].registration.id != ""
    ensures var f := SteppedAll(e, steps);
            && EngineValid(f) && f.defaultClient == e.defaultClient && "" !in f.clients
            && (s.Execute? && s.command.Subscribe? ==> FindsClient(f, s))
  {
    hide Executed, Fits, EngineValid;
    if steps != [] {
      var n := |steps| - 1;
      assert forall i :: 0 <= i < n ==> steps[..n][i] == steps[i] && steps[..n][..i] == steps[..i];
      NamedClientsAreFound(e, steps[..n], s);
      StepKeepsValid(SteppedAll(e, steps[..n]), steps[n]);
      StepKeepsNames(SteppedAll(e, steps[..n]), steps[n]);
    }
    NamedSelection(SteppedAll(e, steps), s);
  }

  lemma StepKeepsNames(e: Engine, s: EngineStep)
    requires EngineValid(e) && e.defaultClient != "" && "" !in e.clients && (s.Register? ==> s.registration.id != "")
    ensures Stepped(e, s).defaultClient == e.defaultClient && "" !in Stepped(e, s).clients
  {
    hide Executed;
    if s.Execute? {
      assert KeyValid(e, KeyOf(s.command.channel));
      ExecutedCounts(e, s.venueOf, s.command);
    }
  }

  lemma NamedSelection(e: Engine, s: EngineStep)
    requires EngineValid(e) && e.defaultClient != "" && "" !in e.clients
    ensures s.Execute? && s.command.Subscribe? ==> FindsClient(e, s)
  {
  }

  /** While a key stays subscribed it stays at its client, and the active depth of a book never falls. */
  lemma DepthNeverFalls(e: Engine, s: EngineStep, k: Key)
    requires EngineValid(e) && Count(e, k) > 0 && Count(Stepped(e, s), k) > 0
    ensures var f := Stepped(e, s);
            && k in e.pinned && k in f.pinned && f.pinned[k] == e.pinned[k]
            && (k.BookKey? ==> ActiveDepth(f, k.id) >= ActiveDepth(e, k.id))
  {
    assert KeyValid(e, k);
    if s.Execute? {
      if KeyOf(s.command.channel) != k {
        ExecutedOthers(e, s.venueOf, s.command, k);
      } else {
        hide SelectClient, Carries;
        ExecutedPins(e, s.venueOf, s.command);
        if s.command.Unsubscribe? {
          ExecutedCounts(e, s.venueOf, s.command);
        }
      }
    }
  }

  lemma MaxDepthUnique(counts: map<int, int>, m: int)
    requires IsMaxDepth(counts, m)
    ensures m == MaxDepth(counts)
  {
  }
}
