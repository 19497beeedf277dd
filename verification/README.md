# A verified model of the NPC trading core

The repository is a single-threaded, event-driven trading system: actors subscribe through a message bus, a data engine
counts their subscriptions and routes market data through a cache, a Binance client keeps order books, a risk and an
execution engine pass orders along. This project models the stateful parts in Dafny and proves what they are for, on all
inputs and over whole runs. Prices, sizes, tokens and seconds are exact `real` numbers, timestamps and milliseconds are
`int`. Objects whose methods update fields are classes; each method is tied to a specification function or relation of the
old state, and the lemmas prove the promises about runs of those functions.

| File | Contents |
|---|---|
| `Basics.dfy`, `Levels.dfy`, `Deltas.dfy` | one side of a book as a sorted list; what a delta and any run of deltas do to it |
| `Vwap.dfy` | the greedy walk: optimality, monotonicity, bounds, depth duality |
| `OrderBook.dfy` | the vector book class, its statistics and market impact |
| `DepthFeed.dfy`, `Ladders.dfy`, `BinanceClient.dfy` | the map book, its feed, its ordered view, agreement with the vector book |
| `RateLimiter.dfy`, `Pagination.dfy`, `SimulatedClock.dfy` | token bucket, kline paging, backtesting timers |
| `Cache.dfy`, `Orders.dfy`, `OrderStore.dfy`, `Execution.dfy` | stale filter, ring buffers, order writes, what commands and events make of the cached orders |
| `Channels.dfy`, `MessageBus.dfy`, `Messages.dfy` | keys and topics, token registry, bounded queue |
| `DataEngine.dfy`, `Actor.dfy`, `Subscriptions.dfy` | reference counts and depths, the actor side, the protocol with commands in flight |
| `Pipeline.dfy`, `Deliveries.dfy`, `Drains.dfy`, `Components.dfy` | what handlers re-enqueue, whole drains; write before publish and delivery order over runs; what drains and runs leave in the engines; the engines and the node loop |

## Where the code keeps less than it seems to promise

Each of these is a result with its exact condition.

- Price tolerance: a delta can displace two levels, never more, and does exactly when its price is near two neighbours
  (`Levels.DisplacesTwoIff`, `Deltas.TwoCanBeDisplaced`). Any two prices closer than the tolerance make the two books differ
  (`Ladders.OffGridDisagree`), and prices on a grid never do.
- The comment above the depth handler speaks of buffering updates before the snapshot; the code drops them. Around a first
  snapshot nothing is missed exactly when the first update after it starts no later than one past the snapshot
  (`DepthFeed.StartUpIsGapFreeIff`), and then the book equals the exchange (`DepthFeed.StartUpEquals`).
- The depth handler does not compare first update ids. Without a gap it tracks the exchange (`DepthFeed.FeedTracks`); for
  every update that skips an id some exchange is lost (`DepthFeed.GapLosesLevels`).
- `request_bars` misses the last kline exactly when it opens at the end of the range one millisecond after the kline that
  closes a full page (`Pagination.RequestBars`, `Pagination.LastCanBeMissed`).
- `update_order` for an unknown order records the timestamp and then drops the order (`OrderStores.StoreRefinesHistory`). An order
  event reaches the cached order exactly if the order is held and later than every write of it (`Executions.EventReachesIff`).
  The engines leave an order's timestamp as it is; for such an order the cache holds it exactly if it was submitted
  before the first event about it, and then as submitted (`Executions.CachedAsSubmitted`). A denied order's first message is an event.
- `unsubscribe_*` sends its command even for a channel that is not held; each step of the protocol keeps the balance exactly
  under the guard proved for it (`Subscriptions.SubscribeBalancedIff`, `UnsubscribeBalancedIff`, `ExecuteBalancedIff`).
- Registering a client keeps the engine valid exactly when the client carries what is pinned to its id, books at their active
  depths (`DataEngines.RegisterKeepsValidIff`): the same object again, or a client without subscriptions under a new id
  (`DataEngines.UsualRegistrationsFit`).
- Bar types are keyed by one joined string. A bar type shares its key with another exactly when there is a bar in its
  instrument name or in its specification (`Channels.BarKeysCollideIff`); names without a bar keep all keys apart
  (`Channels.BarKeysAreDistinct`).
- A weight above the burst size is never granted (`RateLimiting.OversizedIsNeverGranted`); a lone consumer is granted at
  the first reading by which enough has flowed in (`RateLimiting.TokenBucketRateLimiter.Consume`).
- Write-before-publish holds in a drain exactly if each publication of market data in the queue is covered by the cache or by
  market data of its key, as late or later, that waits for the data engine ahead of it (`Deliveries.DrainCoversIff`). So clearing
  the cache is harmless exactly when each such publication has its data stored again ahead of it, and market data that
  another component publishes is harmless exactly when it is covered in this way or dropped (`Deliveries.ActIsHarmlessIff`).
- A historical bar is published at once and goes before data of its key that waits for the data engine, and a stopped bus
  drops what its last handlers publish. A key's market data is delivered in the order in which the bus accepted it, at
  every point of a run, exactly if no step passes data of that key with other data of it, or comes to such data after the
  stop (`Deliveries.DeliveredInOrderIff`, step by step `Deliveries.ActKeepsOrderIff`).
- With risk on every command is denied, because the checks are stubs; the model follows the code.

## Model

| member | source | states |
|---|---|---|
| Levels.DisplacesAtMostTwo | src/market_data.cpp:229-235 | removal by tolerance takes at most two levels out of a spaced side |
| Levels.DisplacesTwoIff | src/market_data.cpp:229-235 | it takes exactly two if and only if the price is near two neighbouring levels |
| Levels.SpacedIsUnique | src/market_data.cpp:209-227 | a spaced side is determined by its set of levels, so contents fix the list |
| Deltas.AppliedGood | src/market_data.cpp:81-109 | every delta keeps the side sorted, spaced by the tolerance and positive; exactly the far levels and the one it puts remain |
| Deltas.DeltaDisplacesAtMostTwo | src/market_data.cpp:81-109 | a delta displaces at most two existing levels |
| Deltas.TwoCanBeDisplaced | src/market_data.cpp:229-235 | a concrete side on which one delta displaces two |
| Deltas.ReplayStands | src/market_data.cpp:81-109 | over every run of deltas the invariant holds and the levels are exactly those put and never touched again |
| OrderBooks.OrderBook.constructor | include/npcTrading/market_data.hpp:337-350 | the book starts with statistics that describe its levels |
| OrderBooks.OrderBook.ComputeStats | src/market_data.cpp:28-79 | the accumulating loops compute totals, spread, mid, weighted mid and imbalance of the two sides |
| OrderBooks.OrderBook.RemoveLevel | src/market_data.cpp:229-235 | the loop keeps exactly the levels outside the tolerance |
| OrderBooks.OrderBook.InsertLevel | src/market_data.cpp:209-227 | the level goes in front of the first level that is not strictly better |
| OrderBooks.OrderBook.ApplyDelta | src/market_data.cpp:81-109 | both sides, timestamp and cached statistics after a delta; a snapshot delta is refused and changes nothing |
| OrderBooks.OrderBook.Clear | src/market_data.cpp:111-116 | an empty book with default statistics |
| OrderBooks.OrderBook.CalculateVwap | src/market_data.cpp:118-140 | the walk returns the average price of the greedy fill, or 0 when nothing fills; buys are priced on the asks and sells on the bids, no better way of trading the amount existing |
| OrderBooks.OrderBook.CalculateMarketImpact | src/market_data.cpp:142-151 | relative distance of that average from the cached mid price, up for buys and down for sells; the mid moved by it is that best price |
| OrderBooks.OrderBook.GetVolumeAtLevel | src/market_data.cpp:153-174 | total size at the price or better; any amount within it averages that price or better |
| OrderBooks.OrderBook.IsCrossed | src/market_data.cpp:176-179 | best bid at or above best ask on a two-sided book; on sorted sides, whether any bid meets any ask |
| OrderBooks.OrderBook.Validate | src/market_data.cpp:186-207 | true exactly when both whole sides are sorted and the book is not crossed |
| OrderBooks.RunsValidateUnlessCrossed | src/market_data.cpp:186-207 | on any book a run of deltas produces from good sides, validation is the test for crossing |
| OrderBooks.ImpactSigns | src/market_data.cpp:142-151 | impact is positive for buys, negative for sells, and grows with the amount |
| OrderBooks.StatsAreSound | src/market_data.cpp:28-79 | spread, mid halfway, volumes, level counts and imbalance of a tradable book, and the weighted mid as the mean of the full-depth averages |
| OrderBooks.AverageIsBest | src/market_data.cpp:118-140 | on a tradable book the average is no better than the best quote, and no way of trading the amount beats it, on the asks for buys and the bids for sells |
| OrderBooks.CrossedIff | src/market_data.cpp:176-179 | sorted sides are crossed if and only if some bid meets some ask |
| OrderBooks.DepthLimitsPrice | src/market_data.cpp:118-174 | an amount within the volume at a price averages that price or better, for buys on the asks and sells on the bids |
| Vwap.WalkIsFeasible | src/market_data.cpp:118-140 | the walk fills the lesser of the amount and the total, within every level's size |
| Vwap.SupportingPrice | src/market_data.cpp:118-140 | the last consumed price values every other split against the walk |
| Vwap.GreedyIsOptimal | src/market_data.cpp:118-140 | no other split of the same amount is cheaper to buy or dearer to sell |
| Vwap.AverageBetween | src/market_data.cpp:118-140 | the average lies between the best and the last consumed price |
| Vwap.AverageMonotone | src/market_data.cpp:118-140 | a larger trade never gets a better average |
| Vwap.VolumeIsPrefix | src/market_data.cpp:153-174 | the volume at a price is the total of a prefix of the side |
| Vwap.VolumeMonotone | src/market_data.cpp:153-174 | the volume grows with the threshold and never exceeds the total |
| Vwap.MarginalIffVolume | src/market_data.cpp:118-174 | a trade reaches no further than a price if and only if it fits in the volume there |
| Vwap.VolumeBoundsAverage | src/market_data.cpp:118-174 | a trade within the volume at a price averages that price or better |
| Vwap.FullWalk | src/market_data.cpp:28-79 | trading a whole side costs its notional value |
| DepthFeed.UpdateTracks | src/binance/binance_data_client.cpp:741-800 | one faithful update, old, overlapping or next, keeps the book equal to the exchange at its own id |
| DepthFeed.LoadHolds | src/binance/binance_data_client.cpp:841-850 | a loaded snapshot holds exactly the listed prices, each with the quantity of its last entry |
| DepthFeed.FeedTracks | src/binance/binance_data_client.cpp:741-862 | over every gap-free feed of updates and snapshots the book follows the exchange on all prices the snapshots covered |
| DepthFeed.ExactFeedEquals | src/binance/binance_data_client.cpp:741-862 | with exact snapshots both sides equal the exchange book at the last update id |
| DepthFeed.StartUpIsGapFreeIff | src/binance/binance_data_client.cpp:741-765 | updates before the snapshot are dropped, and the later ones have no gap if and only if the first starts no later than one past the snapshot |
| DepthFeed.StartUpEquals | src/binance/binance_data_client.cpp:741-862 | such a start-up leaves the book equal to the exchange at the last update or the snapshot, whichever is later |
| DepthFeed.GapLosesLevels | src/binance/binance_data_client.cpp:745-765 | for every update that skips an id there is an exchange the handler loses |
| Ladders.AgreeIsEquality | src/binance/binance_data_client.cpp:81-109 | holding the same positive levels is being the full-depth ordered view |
| Ladders.ChangeAgrees | src/binance/binance_data_client.cpp:769-798 | one level change keeps the two implementations in agreement |
| Ladders.BooksAgree | src/market_data.cpp:81-109 | from any books that agree, any sequence of changes on a price grid leaves them with the same levels |
| Ladders.BooksPublishTheSame | src/binance/binance_data_client.cpp:768-862 | from a snapshot on, over every stream of updates, the vector book is what the map book publishes at full depth |
| Ladders.UpdatesSetLevels | src/binance/binance_data_client.cpp:741-800 | over every stream of updates the map book is its start with the changes of the updates not ignored, in order |
| Ladders.FeedPublishesTop | src/binance/binance_data_client.cpp:741-862 | with snapshots of the best prices only, the client publishes the exchange's own best levels to any depth these prices fill |
| Ladders.SameTopPublished | src/binance/binance_data_client.cpp:81-109 | two books that agree on the best prices publish the same to any depth these prices fill |
| Ladders.PublishedIsTop | src/binance/binance_data_client.cpp:81-109 | a level is published if and only if its quantity is positive and fewer than the depth of prices are better |
| Ladders.PublishedAscends | src/binance/binance_data_client.cpp:81-109 | published sides are in priority order |
| Ladders.OffGridDisagree | src/market_data.cpp:229-235 | two prices within the tolerance make the books differ |
| BinanceClients.BinanceDataClient.SubscribeOrderBook | src/binance/binance_data_client.cpp:256-273 | first subscription opens an empty book, a deeper one only deepens it |
| BinanceClients.BinanceDataClient.UnsubscribeOrderBook | src/binance/binance_data_client.cpp:275-283 | subscription and local book go together |
| BinanceClients.BinanceDataClient.OneSide | src/binance/binance_data_client.cpp:81-109 | the ordered walk yields the positive quantities among the best prices up to the depth |
| BinanceClients.BinanceDataClient.ApplyLevels | src/binance/binance_data_client.cpp:769-798 | erase on zero, set otherwise, in order |
| BinanceClients.BinanceDataClient.ProcessDepthUpdate | src/binance/binance_data_client.cpp:741-812 | unknown, uninitialised and old updates change and emit nothing; others move the book and emit its view |
| BinanceClients.BinanceDataClient.InstallSnapshot | src/binance/binance_data_client.cpp:834-867 | the snapshot replaces the book whatever its id and emits its view |
| BinanceClients.EmissionShowsExchange | src/binance/binance_data_client.cpp:741-862 | what is emitted over a gap-free feed shows exactly the exchange's own levels within the subscribed depth, bids falling and asks rising |
| RateLimiting.TokensStayBounded | src/utils/rate_limiter.cpp:23-47 | every run keeps the tokens between zero and the burst size |
| RateLimiting.WindowBound | src/utils/rate_limiter.cpp:23-47 | over any interleaving and window, grants are at most one burst plus the refill of the window |
| RateLimiting.TokensAccountedFor | src/utils/rate_limiter.cpp:23-47 | over any run the tokens are what was there and flowed in less what was granted, and lose nothing else but what overflows the bucket |
| RateLimiting.WaitIsEnough | src/utils/rate_limiter.cpp:42-45 | left alone, a refused consumer is granted if and only if its weight fits the bucket and the computed wait is over |
| RateLimiting.LoneConsumer | src/utils/rate_limiter.cpp:31-47 | a refused consumer finds the bucket as refilled once since the start, and is granted if and only if that is enough |
| RateLimiting.OversizedIsNeverGranted | src/utils/rate_limiter.cpp:31-47 | a weight above the burst size is refused by every attempt of every run |
| RateLimiting.TokenBucketRateLimiter.constructor | src/utils/rate_limiter.cpp:15-21 | the bucket starts full, with the rate per second |
| RateLimiting.TokenBucketRateLimiter.Refill | src/utils/rate_limiter.cpp:23-29 | tokens grow by elapsed time times rate, capped at the burst size |
| RateLimiting.TokenBucketRateLimiter.Consume | src/utils/rate_limiter.cpp:31-47 | the retry loop takes the first attempt that can be granted and no other; alone, exactly the first by which its weight fits and has flowed in |
| Pagination.RequestBars | src/binance/binance_data_client.cpp:357-393 | the paged loop returns the whole range once, in order, but for one exactly described kline |
| Pagination.FullPageAdvances | src/binance/binance_data_client.cpp:372-388 | a full page followed by a query after its last kline is the rest of the range |
| Pagination.SpacedKlinesAreComplete | src/binance/binance_data_client.cpp:357-393 | klines two milliseconds apart are never missed |
| Pagination.LastCanBeMissed | src/binance/binance_data_client.cpp:359-393 | 1001 klines one millisecond apart, of which the loop returns 1000 |
| Caches.RingBuffer.constructor | include/npcTrading/cache.hpp:22-23 | an empty buffer of the given capacity, zero included |
| Caches.RingBuffer.Push | include/npcTrading/cache.hpp:25-34 | appends to the push history; capacity zero divides nothing |
| Caches.RingBuffer.Recent | include/npcTrading/cache.hpp:36-46 | the last values pushed, up to the capacity, oldest first |
| Caches.Modular | include/npcTrading/cache.hpp:30-41 | the modular indices are the slots of the newest elements |
| Caches.RecordsRise | src/cache.cpp:9-19 | the inputs that pass the filter rise strictly in time |
| Caches.RecordsStep | src/cache.cpp:9-19 | an input passes exactly when it is later than the latest so far |
| Caches.CacheRefinesRecords | src/cache.cpp:213-257 | over any sequence of offers each key holds the records of its own inputs and nothing else |
| Caches.Cache.IsStaleAndUpdate | src/cache.cpp:9-19 | stale if and only if not later than the stored timestamp, which is advanced otherwise |
| Caches.Cache.Add | src/cache.cpp:213-257 | latest value, timestamp and history after an offer, stale ones dropped |
| Caches.Cache.Clear | src/cache.cpp:288-309 | values, timestamps and histories are forgotten |
| Caches.Cache.Recent | src/cache.cpp:201-211 | the last records of the key that fit the capacity, in order |
| Caches.Cache.RecentQuotes | src/cache.cpp:316-326 | at most the last record of the key |
| OrderStores.StoreRefinesHistory | src/cache.cpp:72-93 | an order is held exactly if some add was new when it came, and is then its last new write |
| OrderStores.OrderCache.Add | src/cache.cpp:72-79 | stores a new order, drops a stale one |
| OrderStores.OrderCache.Update | src/cache.cpp:81-93 | replaces a known order, loses an unknown one but keeps its timestamp |
| OrderStores.OrderCache.Clear | src/cache.cpp:288-309 | orders and their timestamps are forgotten |
| SimulatedClocks.IdsAreFresh | src/clock.cpp:120-138 | every schedule hands out an id never used before |
| SimulatedClocks.QueueIsWhatWaits | src/clock.cpp:120-176 | the queue holds exactly the timers issued and not due at any pass since |
| SimulatedClocks.CancellationsLast | src/clock.cpp:140-143 | a queued timer is marked cancelled exactly if its id was ever cancelled |
| SimulatedClocks.CancelledIsMarked | src/clock.cpp:140-163 | an id is remembered as cancelled until a pass takes its timer off the queue |
| SimulatedClocks.NowIsLastSet | src/clock.cpp:145-147 | the time is the one last set |
| SimulatedClocks.FiresExactlyWhen | src/clock.cpp:149-176 | a pass fires a timer exactly if issued, due, not taken before and not cancelled before the pass |
| SimulatedClocks.EachTimerSettlesOnce | src/clock.cpp:149-176 | every issued timer is pending, fired or skipped, exactly one of them, and settles at one pass |
| SimulatedClocks.SimulatedClock.ScheduleCallback | src/clock.cpp:120-138 | a new timer under the next id |
| SimulatedClocks.SimulatedClock.CancelCallback | src/clock.cpp:140-143 | the id is remembered, issued or not |
| SimulatedClocks.SimulatedClock.SetCurrentTime | src/clock.cpp:145-147 | only the time changes |
| SimulatedClocks.SimulatedClock.ProcessPendingCallbacks | src/clock.cpp:149-176 | due timers leave the queue; those not cancelled, and no others, run once each in due-time order |
| Channels.TopicsAreDistinct | include/npcTrading/strategy.hpp:156-167 | two keys share a topic only if they are the same key |
| Channels.BarKeysAreDistinct | include/npcTrading/data_engine.hpp:391-393 | bar keys are distinct when instrument names contain no bar |
| Channels.BarKeysCollideIff | include/npcTrading/data_engine.hpp:391-393 | a bar type shares its key with another if and only if there is a bar in its name or its specification |
| MessageBuses.TokensAreFresh | src/message_bus.cpp:124-183 | on every run the two maps are exact inverses without empty topics and no token is handed out twice |
| MessageBuses.RegistryRefinesHistory | src/message_bus.cpp:124-183 | a handler is registered under a token exactly while its subscription is live, for its own topic |
| MessageBuses.StillRegistered | src/message_bus.cpp:142-183 | an operation drops a registration exactly when it ends it, and never moves one |
| MessageBuses.MessageBus.constructor | src/message_bus.cpp:15-21 | an empty, stopped bus |
| MessageBuses.MessageBus.RegisterHandler | src/message_bus.cpp:35-46 | an endpoint's handler is set; an empty name is refused |
| MessageBuses.MessageBus.Send | src/message_bus.cpp:71-95 | appended if running and below the bound, else dropped; accepted messages are those handled plus those queued |
| MessageBuses.MessageBus.Publish | src/message_bus.cpp:185-209 | the same for a topic |
| MessageBuses.MessageBus.SubscribeTopic | src/message_bus.cpp:124-140 | registers under a token never in use; an empty topic is refused |
| MessageBuses.MessageBus.UnsubscribeToken | src/message_bus.cpp:142-168 | removes one registration and its topic if it was the last; unknown and invalid tokens change nothing |
| MessageBuses.MessageBus.UnsubscribeTopic | src/message_bus.cpp:170-183 | removes a topic and all its tokens |
| MessageBuses.MessageBus.Take | src/message_bus.cpp:262-273 | the oldest accepted message is handled next |
| MessageBuses.MessageBus.Recipients | src/message_bus.cpp:302-342 | a published message reaches the handler of every token registered at that moment, each once |
| DataEngines.ClientsFollowRegistrations | src/data_engine.cpp:60-70 | exactly the registered ids are known |
| DataEngines.DefaultFollowsRegistrations | src/data_engine.cpp:60-70 | the default is the first client registered under a name, and there is none if all names are empty |
| DataEngines.VenuesFollowRegistrations | src/data_engine.cpp:60-70 | a venue leads to the client registered last for it |
| DataEngines.SelectionFollowsRegistrations | src/data_engine.cpp:72-96 | requested client, else the venue's last, else the first registered under a name |
| DataEngines.RunSelectsByRegistrations | src/data_engine.cpp:60-96 | at every point of a run clients are selected as the registrations so far say |
| DataEngines.ExecutedValid | src/data_engine.cpp:114-438 | every command keeps counts, pins, client subscriptions and depths consistent for every key |
| DataEngines.ExecutedCounts | src/data_engine.cpp:114-438 | a command moves only its key's count, by one, and only if a client or a count is there |
| DataEngines.ExecutedOthers | src/data_engine.cpp:114-438 | a command changes nothing about other keys, at the engine or at any client |
| DataEngines.RegisterKeepsValidIff | src/data_engine.cpp:60-70 | storing a client under an id keeps the engine valid if and only if it carries exactly what is pinned there, books at active depth |
| DataEngines.UsualRegistrationsFit | src/data_engine.cpp:60-70 | the registered object again, and a client without subscriptions under a new id, keep it valid |
| DataEngines.DepthProtocol | src/data_engine.cpp:121-366 | over runs of commands and registrations a key with outstanding subscriptions is carried by the client selected for the first of them, and no other; a book at the deepest request since |
| DataEngines.NamedClientsAreFound | src/data_engine.cpp:72-96 | while there is a default and all clients have names, every subscription finds one |
| DataEngines.DepthNeverFalls | src/data_engine.cpp:121-320 | while subscribed, a key stays at its client, and a book's depth never falls, at commands and registrations |
| Components.DataEngine.RegisterClient | src/data_engine.cpp:60-70 | default, client and venue entries after a registration, the client as it came |
| Components.DataEngine.DeepestRequest | src/data_engine.cpp:276-284 | the loop finds the deepest counted request |
| Components.DataEngine.HandleExecute | src/data_engine.cpp:114-438 | the whole engine state after a subscription command |
| Components.DataEngine.SubscribeStream | src/data_engine.cpp:121-157 | count, pin and client subscription of quotes, trades and bars |
| Components.DataEngine.SubscribeBook | src/data_engine.cpp:258-332 | count, depth count, pin, active depth and reopening at the client |
| Components.DataEngine.UnsubscribeKey | src/data_engine.cpp:159-186 | count down, and forget the key everywhere at zero |
| Components.DataEngine.HandleProcess | src/data_engine.cpp:440-502 | the message is stored under its key behind the stale filter, then published on the key's topic |
| Components.DataEngine.ReplayBars | src/data_engine.cpp:574-582 | each bar of a historical answer is stored under its own key, in order, and published on its own topic |
| Components.PublishedAllFits | src/data_engine.cpp:574-582 | as many bars are published as the queue has room for, in order, each on the topic of its own key |
| Components.ReplayIsHistory | src/data_engine.cpp:574-582 | replaying bars is a run of their histories |
| Actors.Actor.Subscribe | src/strategy.cpp:13-33 | one hold, one live token of its own, one command; nothing if refused or already held |
| Actors.Actor.Unsubscribe | src/strategy.cpp:35-51 | hold and token are gone and the command is sent, held or not |
| Subscriptions.RunKeepsInvariant | src/strategy.cpp:53-88 | on every clean run tokens, queue, counts and depths agree with what the actors hold, whatever instruments are cached, whoever else subscribes, and whenever the bus stops |
| Subscriptions.Conservation | src/data_engine.cpp:121-186 | count plus queued commands is never negative at any prefix and equals the number of holders over the whole queue |
| Subscriptions.DrainedIsExact | src/data_engine.cpp:121-366 | after a drain the counts are the numbers of holders, one client carries each held key, books deep enough for every holder |
| Subscriptions.DeliveredToHolders | src/message_bus.cpp:302-329 | on every run, drops, unheld unsubscriptions and other subscribers included, a publication for a key calls each actor once per hold of that key, and besides them only the others |
| Subscriptions.RunKeepsTokens | src/strategy.cpp:53-88 | on every run the bus registers the actors' tokens, one for each hold, each for its topic and actor, and besides them only tokens of other components |
| Subscriptions.SubscribeBalancedIff | src/strategy.cpp:53-71 | a new subscription keeps the balance if and only if the bus accepts its command |
| Subscriptions.UnsubscribeBalancedIff | src/strategy.cpp:73-88 | an unsubscription keeps it if and only if the channel was held exactly when the command was accepted |
| Subscriptions.ExecuteBalancedIff | src/data_engine.cpp:121-186 | execution keeps it if and only if a client is available, or a count is there to lower |
| Pipeline.EndpointHandlers | include/npcTrading/message_bus.hpp:218-233 | endpoints have distinct names and find their engine's handler |
| Pipeline.EmittedRankIsLower | src/execution_engine.cpp:61-253 | whatever a handler enqueues is at a strictly lower stage |
| Pipeline.HandlingFits | src/message_bus.cpp:251-284 | a turn of the drain drops nothing, never lengthens the queue, and lowers the weight |
| Pipeline.DrainHandlesEveryChain | src/message_bus.cpp:251-284 | a drain ends empty, having handled each message and all it gave rise to exactly once and nothing else |
| Pipeline.DrainTurns | src/message_bus.cpp:251-284 | it takes at most four turns per queued message |
| Pipeline.HandledTimes | src/message_bus.cpp:251-284 | at no point of a drain is the queue longer than at its start |
| Pipeline.FlushHandlesQueueOnly | src/message_bus.cpp:226-249 | the last pass of a stopped bus handles exactly what was queued, in order |
| Pipeline.SubmittedOrderIsAnswered | src/risk_engine.cpp:44-73 | a submitted order ends in exactly one published event: denied or submitted with the status set, or rejected with the order as it was |
| Pipeline.AnnouncedIffSubmitted | src/execution_engine.cpp:61-104 | an order is announced as submitted if and only if its client is called to submit it |
| Pipeline.OthersEndAsPublished | src/execution_engine.cpp:148-253 | an event ends in one publication with its order's status and fills set, market data in one of its own; other commands publish nothing |
| Deliveries.WriteBeforePublish | src/data_engine.cpp:440-502 | over every run of allowed steps, subscriptions and connections changing, market data is delivered only once the cache holds its key at that timestamp or later |
| Deliveries.ActKeepsCoveredIff | src/cache.cpp:288-309 | a step keeps all deliveries to come covered if and only if it is allowed: what is queued or published must be covered by the cache or by data stored ahead of it |
| Deliveries.ActIsHarmlessIff | src/cache.cpp:288-309 | exactly when a clear of the cache, or a publication by another component, leaves every delivery of the next drain covered |
| Deliveries.DrainCoversIff | src/message_bus.cpp:251-284 | a drain delivers only what the cache holds if and only if each queued publication is covered by the cache or by data stored ahead of it |
| Deliveries.FlushCoversIff | src/message_bus.cpp:226-249 | the same for the last pass of a stopped bus |
| Deliveries.ClearBreaksIt | src/cache.cpp:288-309 | clearing the cache while market data is next in the queue delivers data the cache does not hold |
| Deliveries.DrainDeliversInOrder | src/message_bus.cpp:251-284 | a drain delivers each key's market data once, publications first, then what waited for the data engine, in order |
| Deliveries.LastTurnKeepsLineIff | src/message_bus.cpp:226-249 | the last pass of a stopped bus loses a message of a key if and only if it finds it waiting for the data engine |
| Deliveries.ArrivalJoinsLine | src/data_engine.cpp:574-582 | data sent to the engine joins the end of its key's line; what is published past it, historical bars included, goes before all that waits |
| Deliveries.ActKeepsOrderIff | src/data_engine.cpp:440-582 | a step keeps the order of acceptance of a key's market data if and only if it does not pass or lose any that waits |
| Deliveries.DeliveredInOrderIff | src/data_engine.cpp:440-582 | over every run, live data, historical bars and other publications mixed, a key's data keeps that order throughout if and only if no step passes or loses any |
| Deliveries.DeliveredInOrder | src/data_engine.cpp:440-502 | on every such run what is delivered, published and waiting of a key is what the bus accepted, in that order |
| Drains.DrainFeeds | src/message_bus.cpp:251-284 | a drain executes exactly the subscription commands that were queued, and offers the cache exactly the market data, in queue order |
| Drains.FlushFeeds | src/message_bus.cpp:226-249 | so does the last pass of a stopped bus |
| Drains.DrainServes | src/message_bus.cpp:251-342 | while it drains, the execution engine gets exactly the commands and events handled, and each publication calls exactly the handlers registered for its topic |
| Drains.FlushServes | src/message_bus.cpp:226-249 | the same for the last pass of a stopped bus |
| Drains.RunDoes | src/message_bus.cpp:251-342 | over every run, settings changing, data and execution engine are where the messages handled for them lead, in order |
| Drains.CommandsAreExecuted | src/message_bus.cpp:251-342 | every subscription command the bus accepted is executed once, in the order of acceptance, or still queued |
| Drains.DeliveryReachesHolders | src/message_bus.cpp:302-342 | the delivery of a publication for a key calls each actor once per hold of it, and besides them only other components |
| Drains.DrainIsCleanRun | src/message_bus.cpp:251-284 | a drain of the node is a clean run of the subscription protocol |
| Components.RiskEngine.HandleExecute | src/risk_engine.cpp:44-73 | forwards with risk bypassed, denies submitted orders otherwise |
| Components.RiskEngine.DenyOrder | src/risk_engine.cpp:159-170 | one denial event for an order, nothing without one |
| Components.ExecutionEngine.HandleExecute | src/execution_engine.cpp:61-146 | caches a submitted order, rejects it for a missing or disconnected client, else calls the client, also to cancel and modify |
| Components.ExecutionEngine.ClientSubmitOrder | src/binance/binance_execution_client.cpp:245-264 | the exchange client announces the order at once, and tracks it or holds it back |
| Components.ExecutionEngine.HandleProcess | src/execution_engine.cpp:148-253 | status and filled quantity of the event's order, its update of the cache, and one publication of the event with that order |
| Executions.CachedAsSubmitted | src/execution_engine.cpp:61-253 | of an order whose timestamp stays, the cache holds it if and only if, since the last clear, it was submitted before any event about it, and then as submitted |
| Executions.DeskRefinesHistory | src/execution_engine.cpp:61-253 | over every run of commands, events and clears an order is held exactly if some submission since the last clear was new, and is its last new write |
| Executions.EventReachesIff | src/execution_engine.cpp:148-253 | an event reaches the cached orders if and only if its order is held and later than every write of it since the last clear |
| Executions.CallsFollowCommands | src/execution_engine.cpp:61-146 | over every run the clients are called for exactly the commands whose clients were connected, in order, and track the order last submitted under an id |
| Orders.FillsAddUp | src/execution_engine.cpp:148-253 | over any run of events fills add up, the status is that of the last event, and after a fill it is filled exactly if the fills reach the quantity |
| Components.TradingNode.Initialize | src/data_engine.cpp:14-32 | after the engines register, every endpoint has its own handler and other registrations stay |
| Components.TradingNode.ProcessMessage | src/message_bus.cpp:302-348 | queue, cache, engine, orders and deliveries after one message |
| Components.TradingNode.Deliver | src/message_bus.cpp:307-329 | a publication calls the handler of every token registered for its topic at that moment |
| Components.TradingNode.Run | src/message_bus.cpp:251-284 | the loop is the whole drain: all queued commands executed, all market data offered, all handled orders worked off, all publications delivered; covered if and only if its queue was; on a stopped bus an error |
| Components.TradingNode.Stop | src/message_bus.cpp:226-249 | exactly what was queued is handled, with the same account of commands, market data, orders and publications, and all it sends is dropped |

## Left out

- Networking, TLS, JSON, signing, listen keys, threads and reconnects: exchange updates, snapshots and kline pages are inputs.
- Floating-point rounding and the overflow of integer counters: arithmetic is exact.
- The dashboard, the metrics collector, shared memory, the web front end and the live clock.
- Component life cycle, logging, enum names, order getters, position updates and the risk checks, which are stubs.
- Orders are values carried by their messages: that two messages may share one order object, and so see each other's status and filled quantity, is not modelled.
- The Binance client's tracking of orders ends with the request; flushing the orders it held back, and what it does on cancel requests, is I/O. Its modify only logs.
- Exceptions thrown by handlers, and callbacks that send: topic subscribers are taken to return normally and to send nothing during a drain.
- Clients replaced by a registration keep their own subscriptions at the exchange; the engine no longer sees them.
- Executions.CachedAsSubmitted: is about orders whose messages all carry one timestamp; `Executions.DeskRefinesHistory` and `Executions.EventReachesIff` have no such condition.
- What the exchange answers to an order arrives from outside; only the announcement the client sends at once is part of the drain.
- Callbacks of the simulated clock that schedule, cancel or process again are later steps of a run, not nested inside a pass.
- Two registered client ids that share one client object: clients are kept as values under their ids.
- The four copies of the subscription code for quotes, trades, bars and books are one, keyed by a tagged channel; only books have depths. Likewise the cache maps of the four kinds of market data, and positions beside orders.
- `update_level`, which nothing calls, and `is_locked`.
- RateLimiting.TokenBucketRateLimiter.Consume: waiting on the condition variable is a list of clock readings, so it may run out of them; consumers that interleave are runs of attempts in the lemmas.
