# Verification of the price-feed service

A Dafny model of the parts of the service that hold state machines, concurrent protocols, a
refinement, or a text transformation, with proofs about all inputs, all runs and all interleavings.
Check it with `dafny verify dfyconfig.toml`.

| part of the service | files here |
|---|---|
| WebSocket client with reconnecting goroutines (`pyth/pythwebsocket.go`) | `Reconnect.dfy`, `ReconnectGoroutines.dfy`, `ReconnectReaders.dfy`, `ReconnectBound.dfy`, `ReconnectWorstCase.dfy`, `ReconnectAfterDisconnect.dfy` |
| Sharded concurrent map (`shared/patterns/concurrent.go`) | `Fnv.dfy`, `ShardedMap.dfy`, `ShardIteration.dfy`, `ShardSnapshots.dfy`, `KeysCollection.dfy`, `KeysResults.dfy`, `KeysHang.dfy`, `KeysAlone.dfy`, `KeysSnapshots.dfy` |
| RPC endpoint selection and client table (`rpcscan/rpcswitcher.go`) | `EndpointSelection.dfy`, `ScanOutcome.dfy`, `ClientTable.dfy`, `Decimal.dfy` |
| Unified price cache (`pricefeed/price_cache.go`) | `PriceCacheModel.dfy`, `PriceCache.dfy`, `PricePruning.dfy`, `PriceCacheRuns.dfy`, `MapSums.dfy` |
| JavaScript-to-JSON converter (`rpcscan/jsfilescan.go`) | `Regexp.dfy`, `Json.dfy`, `JsToJson.dfy`, `JsRewrites.dfy`, `JsFragment.dfy`, `JsStages.dfy`, `JsFirstName.dfy`, `JsTheorem.dfy` |
| Chainlink sweep and adapter (`pricefeed/chainlink_monitor.go`) | `Sweep.dfy`, `SweepPrices.dfy`, `ChainlinkFetch.dfy` |
| Retries (`chainlink/client.go`, `pyth/client.go`) | `ChainlinkFetch.dfy`, `HermesRequest.dfy` |

`Wrappers.dfy` and `Sums.dfy` are shared helpers.

How things are modelled. Goroutines are step systems: a state holds the shared fields, the channel,
the locks and one program counter per goroutine; a run is any sequence of enabled steps, so a lemma
about all runs is a lemma about all interleavings. Objects that the program updates in place are
classes whose methods are proved against functions on their contents; the lemmas are about those
functions. What the network answers (dials, reads, probes, contract calls, HTTP responses), timeouts
and the interleaving with other goroutines are inputs. Go integers are unbounded here except where a
width matters: the FNV hash is on 32-bit vectors, ParseUint checks 64 bits, and the HTTP backoff
wraps as int64.

Where the program and what it says about itself differ, the model follows the program:

- `prune` is said to keep the cache under its size limit by removing older entries
  (`pricefeed/price_cache.go:196-197`). It never removes anything: each key has one entry, which is its
  latest. `PriceCache.PriceCache.Prune` proves the cache unchanged for every content and size.
- "max reconnection attempts (n) reached" (`pyth/pythwebsocket.go:383`): up to 2n-1 reconnection dials
  can be made before it, because the limit check and the increment are separate steps and a failed
  handler starts another. The bound is proved and shown to be attained for every n.
  The configured limit itself holds for all failing runs only up to 1 (`ReconnectWorstCase.LimitHoldsIff`).
- The read loop is "restarted" after a reconnection (`pyth/pythwebsocket.go:416-417`). It is doubled when a
  reader reconnected: that reader goes on reading, too. `ReconnectReaders.ReadersPileUp` gives, for every n,
  a run without outside calls that ends with n readers on one connection.
- Disconnect does not rule out a later connection: a handler that sleeps past the limit check, or a
  goroutine that will still pass it, dials on. `ReconnectAfterDisconnect.ReconnectsIff` says exactly when.
- `Keys` promises all keys (`shared/patterns/concurrent.go:228`). With writers it can return too few names or
  zero values, and it can leave a goroutine hanging on its send with a shard's read lock held, so that every
  later `Set` of a key of that shard waits for good. `KeysHang.SomeRunHangs` gives such a run for
  every key; `KeysResults.WhereItStops` and `KeysResults.KeysExactlyWhen` say exactly when.
- A sweep stores every registered feed's price as a Chainlink price, whatever source registered it
  (`pricefeed/chainlink_monitor.go:172-180`): a Pyth feed "pyth:x" of a network with a client makes it register
  "chainlink:pyth:x". `Sweep.SweepKeepsFeedsIff` says exactly when a sweep leaves the feed lists alone.
- The rewrite that is to fix the first property (`rpcscan/jsfilescan.go:105-106`) never applies, on any
  text: the rewrite before it has already quoted that name.
- A property name with white space before its colon is not quoted by the converter; the output is then
  not JSON, as for `{a :1}` (`JsTheorem.SpacedNameIsLost`). The condition is exact in
  `JsTheorem.ConversionPreservesMeaning`.
- With a negative number of retries the HTTP client sends nothing and reports success
  (`pyth/client.go:62-108`), part of `HermesRequest.HttpRequest`.
- Beyond 36 retries a backoff pause can overflow a duration; `HermesRequest.AllPausesDoubleIff`.
- Prefixed identifiers of sources that contain a colon can collide, exactly as
  `PriceCacheModel.CollisionIff` says.

## Model

| member | source | states |
|---|---|---|
| Reconnect.WebSocketClient.Connect | pyth/pythwebsocket.go:85-108 | a failed dial changes nothing; a successful one sets the connection and the connected flag and clears the count and the gave-up flag |
| Reconnect.WebSocketClient.Reset | pyth/pythwebsocket.go:120-125 | only the gave-up flag and the reconnect count are cleared |
| Reconnect.WebSocketClient.Disconnect | pyth/pythwebsocket.go:128-142 | connection and connected flag go together; nothing changes without a connection |
| Reconnect.WebSocketClient.LoseConnection | pyth/pythwebsocket.go:365-386 | the locked part of handleReconnect drops the connection, and lets a dial follow exactly if the client has not given up and is below the limit, giving up otherwise |
| Reconnect.LocalKeepsFields | pyth/pythwebsocket.go:85-142 | every single step of every goroutine keeps the per-line conditions on the fields, and outside the lock only the reconnect count changes |
| Reconnect.StepKeepsSafe | pyth/pythwebsocket.go:85-142 | mutual exclusion and the field conditions survive every step of every goroutine and every outside call |
| Reconnect.ConnectSection | pyth/pythwebsocket.go:86-107 | the steps of Connect under the lock do what the Connect method does |
| Reconnect.HandleReconnectSection | pyth/pythwebsocket.go:366-386 | the locked steps of handleReconnect do what LoseConnection does, and continue to the increment exactly if the client has not given up |
| Reconnect.DisconnectAndResetSections | pyth/pythwebsocket.go:120-142 | the same for Disconnect and Reset |
| Reconnect.EverySchedule | pyth/pythwebsocket.go:85-142 | in every interleaving of Connect, Start, Disconnect, Reset, readers and handlers: whenever connMutex is free, connected holds exactly when there is a connection, and a client that gave up has none |
| Reconnect.NoDeadlock | pyth/pythwebsocket.go:255-418 | unless all goroutines have ended, one of them can move |
| ReconnectGoroutines.ConnectAlone | pyth/pythwebsocket.go:85-108 | a call of Connect on its own: two steps that change nothing but the number of dials if the dial fails, six that leave the new connection, the connected flag, a count of 0 and no gave-up flag if it succeeds |
| ReconnectGoroutines.HandleReconnectGivesUp | pyth/pythwebsocket.go:365-386 | at the limit, or when the client has given up, handleReconnect drops the connection, sets the gave-up flag, dials nothing and starts nothing |
| ReconnectGoroutines.HandleReconnectFails | pyth/pythwebsocket.go:388-400 | below the limit with a dial that fails: the attempt stays counted, and exactly one new handler runs |
| ReconnectGoroutines.HandleReconnectSucceeds | pyth/pythwebsocket.go:388-418 | with a dial that succeeds: the connection is open, the count is 0, and exactly one new reader runs, besides the caller if that is a reader |
| ReconnectGoroutines.StartWhenConnected | pyth/pythwebsocket.go:230-252 | Start on an open connection dials nothing, and starts exactly one reader unless the resubscription fails |
| ReconnectGoroutines.StartWhenDisconnected | pyth/pythwebsocket.go:230-252 | Start without a connection dials once; it starts exactly one reader if dial and resubscription succeed, and nothing if either fails |
| ReconnectGoroutines.ReaderLeavesLoop | pyth/pythwebsocket.go:255-280 | a reader ends when it is cancelled or the client has given up, and goes to reconnect without a connection |
| ReconnectGoroutines.ReaderTurn | pyth/pythwebsocket.go:282-298 | with a connection it reads; it goes on after a message and to reconnect after a failed read |
| ReconnectGoroutines.DisconnectAlone | pyth/pythwebsocket.go:128-142 | Disconnect cancels the readers and drops connection and flag together |
| ReconnectGoroutines.ResetAlone | pyth/pythwebsocket.go:120-125 | Reset clears the gave-up flag and the count and nothing else |
| ReconnectGoroutines.CallsBegin | pyth/pythwebsocket.go:85-142 | an outside call is one goroutine more, at the first line of its method |
| ReconnectGoroutines.EveryStartIsOwed | pyth/pythwebsocket.go:230-418 | in every interleaving, a goroutine has started exactly one reader for each reconnection and each resubscription in Start that succeeded, one handler for each reconnection that failed, save one it is about to start, and nothing else |
| ReconnectGoroutines.StartStartsOneReader | pyth/pythwebsocket.go:230-252 | in every interleaving, a call of Start that has returned has started exactly one reader if no dial or resubscription of its own failed, and nothing otherwise |
| ReconnectGoroutines.ReconnectStartsOne | pyth/pythwebsocket.go:365-418 | in every interleaving, a handler that has ended, or a reader between two turns, has started one reader per successful and one handler per failed dial, and nothing else |
| ReconnectGoroutines.StartReachesStarted | pyth/pythwebsocket.go:230-252 | some run of Start on a fresh client reaches the fields and the one reader from which the bounds below set out |
| ReconnectReaders.ReadersPileUp | pyth/pythwebsocket.go:412-418 | with a limit of at least 1, some run without outside calls leads to any number of readers on one open connection |
| ReconnectReaders.OneReaderIff | pyth/pythwebsocket.go:255-418 | in every interleaving after Start there is only the one reader if and only if the limit allows no reconnection |
| ReconnectBound.StepKeepsBalance | pyth/pythwebsocket.go:365-400 | a step keeps the account of dials made, dials under way, handlers past the check and the reconnect count on which the bound rests |
| ReconnectBound.StepSpendsFuel | pyth/pythwebsocket.go:255-400 | every step lowers a measure over remaining attempts and weighted goroutine phases, except for what delivered messages add |
| ReconnectBound.DialBound | pyth/pythwebsocket.go:255-400 | one reader, all dials failing, no Connect, Start or Reset from outside: at most 2 * maxReconnects - 1 reconnection dials in every interleaving (none for a limit below 1) |
| ReconnectBound.LengthBound | pyth/pythwebsocket.go:255-400 | every such run is finite: its length is bounded by the limit, the messages delivered first and the Disconnect calls |
| ReconnectBound.FinalStates | pyth/pythwebsocket.go:263-279 | when it cannot go on all goroutines have ended and the client has given up after at least maxReconnects dials, unless Disconnect stopped the reader before the first dial |
| ReconnectWorstCase.LimitHoldsIff | pyth/pythwebsocket.go:379-388 | all failing runs stay within maxReconnects dials if and only if maxReconnects is at most 1 |
| ReconnectAfterDisconnect.LocalKeepsBlocked | pyth/pythwebsocket.go:255-418 | one step of any goroutine of a disconnected client that nobody can reconnect brings no connection, no new dial and no new way to the limit check |
| ReconnectAfterDisconnect.ReconnectsIff | pyth/pythwebsocket.go:128-142 | after Disconnect, with no Connect, Start or Reset in progress or to come, some later state has a connection if and only if a goroutine is past the limit check, or before it while the client has not given up and the count is below the limit or about to be set to 0 |
| ReconnectWorstCase.DialBoundIsExact | pyth/pythwebsocket.go:365-400 | for every limit some interleaving makes exactly that many dials |
| Fnv.Fnv32 | shared/patterns/concurrent.go:271-279 | the loop computes the FNV-1 fold of the key's bytes |
| Fnv.KnownHashes | shared/patterns/concurrent.go:271-279 | the published FNV-1 values of three short strings |
| Fnv.TimesIsBijective | shared/patterns/concurrent.go:275 | multiplying by the FNV prime modulo 2^32 is undone by multiplying by 0x359c449b, and the other way round |
| Fnv.FoldIsBijective | shared/patterns/concurrent.go:274-277 | one hash step is a bijection on 32-bit states, for every byte |
| Fnv.OneByteApart | shared/patterns/concurrent.go:271-279 | keys of equal length that differ in exactly one byte never share a hash |
| Fnv.SlotIsRemainder | shared/patterns/concurrent.go:30-32 | the remainder modulo 32 is the low five bits of the hash |
| Fnv.SlotRecurrence | shared/patterns/concurrent.go:30-32 | the shard index obeys a recurrence on five bits: start 5, times 19, xor the byte's low five |
| Fnv.OneByteApartSlots | shared/patterns/concurrent.go:30-32 | such keys share a shard if and only if their differing bytes agree in the low five bits |
| ShardedMap.SameShard | shared/patterns/concurrent.go:30-32 | GetShard sends two keys to one shard exactly if their five-bit indices agree |
| ShardedMap.UnionLookup | shared/patterns/concurrent.go:83-91 | when every key lives in its own shard, looking a key up in that shard is looking it up in the whole map |
| ShardedMap.UnionSize | shared/patterns/concurrent.go:94-103 | the shard sizes add up to the size of the whole map |
| ShardedMap.Refines | shared/patterns/concurrent.go:44-134 | Set, Upsert, SetIfAbsent, Get, Has, Remove and Pop on the shards give the result and the contents of the same operation on one plain map, and keep keys in their shards |
| ShardedMap.EveryRunRefines | shared/patterns/concurrent.go:44-134 | so does every sequence of critical sections of concurrent callers, answer by answer |
| ShardedMap.ShardsCommute | shared/patterns/concurrent.go:44-134 | operations on different shards commute in contents and answers |
| ShardedMap.ConcurrentMap.constructor | shared/patterns/concurrent.go:21-27 | a new map has 32 distinct shards and is empty |
| ShardedMap.ConcurrentMap.GetShard | shared/patterns/concurrent.go:30-32 | the index is the key's shard |
| ShardedMap.ConcurrentMap.Set | shared/patterns/concurrent.go:44-50 | as a plain map update |
| ShardedMap.ConcurrentMap.MSet | shared/patterns/concurrent.go:34-41 | as a plain map merge, in whatever order the keys are taken |
| ShardedMap.ConcurrentMap.Upsert | shared/patterns/concurrent.go:59-67 | stores and returns what the callback makes of the old entry and the new value |
| ShardedMap.ConcurrentMap.SetIfAbsent | shared/patterns/concurrent.go:70-80 | stores and answers true exactly if the key was absent |
| ShardedMap.ConcurrentMap.Get | shared/patterns/concurrent.go:83-91 | as a plain map lookup |
| ShardedMap.ConcurrentMap.Has | shared/patterns/concurrent.go:106-114 | as plain map membership |
| ShardedMap.ConcurrentMap.Remove | shared/patterns/concurrent.go:117-123 | as plain map removal |
| ShardedMap.ConcurrentMap.Pop | shared/patterns/concurrent.go:126-134 | removal that returns the removed value, if any |
| ShardedMap.ConcurrentMap.Count | shared/patterns/concurrent.go:94-103 | the number of entries of the whole map |
| ShardIteration.StepKeepsInv | shared/patterns/concurrent.go:174-195 | every step of writers, senders, closer and collector keeps: what is received or buffered is exactly what has been sent, each entry once |
| ShardIteration.ItemsAreTheSnapshots | shared/patterns/concurrent.go:174-207 | in every interleaving with writers, Items returns the disjoint union of what each goroutine read of its shard, each entry delivered once; the channel is closed at most once, after all 32 goroutines, and no send follows |
| ShardIteration.AlwaysProgress | shared/patterns/concurrent.go:150-207 | with any channel capacity, 0 included, the iteration can go on until the collector has finished |
| ShardIteration.IterationIsBounded | shared/patterns/concurrent.go:174-207 | however much is written meanwhile, the iteration takes at most three steps per shard, two per entry seen, and two more |
| ShardSnapshots.MapFollowsWrites | shared/patterns/concurrent.go:174-195 | the iteration writes nothing: at every moment the shards together are what the callers' critical sections so far make of one plain map |
| ShardSnapshots.ItemsReadAtTheLock | shared/patterns/concurrent.go:174-207 | in every interleaving with writers, Items locks each key's shard exactly once and returns under the key exactly what the map held under it at that moment |
| ShardSnapshots.WriterWaitsForTheLock | shared/patterns/concurrent.go:181-190 | at any moment of an iteration Get and Has never wait, and every other operation waits if and only if the iteration has locked and not yet unlocked its key's shard |
| KeysCollection.MoveKeepsInv | shared/patterns/concurrent.go:229-257 | every step of the counting loop, the goroutines, the receiving loop and writers keeps: at most count names received, at most count in the channel, zero values only from the closed, drained channel |
| KeysResults.KeysExactlyWhen | shared/patterns/concurrent.go:229-257 | in every run with writers, when Keys has returned: the names are distinct map keys, without filler, if and only if the snapshots hold at least as many keys as were counted, and exactly the keys of the snapshots if and only if they hold as many |
| KeysResults.WhereItStops | shared/patterns/concurrent.go:229-257 | in every run with writers, where Keys can make no further step it has returned, and all its goroutines have ended if and only if the snapshots hold at most twice as many keys as were counted |
| KeysHang.HangsForever | shared/patterns/concurrent.go:236-245 | a goroutine that is left hanging stays so whatever follows, and no operation that writes to its shard ever gets the lock |
| KeysHang.SomeRunHangs | shared/patterns/concurrent.go:229-257 | for every key there is a run on an empty map, in which that key is set after the counting, that leaves a goroutine hanging and returns no name |
| KeysHang.KeysIsBounded | shared/patterns/concurrent.go:229-257 | however much is written meanwhile, Keys and its goroutines make a bounded number of steps |
| KeysAlone.KeysIsExact | shared/patterns/concurrent.go:229-257 | without writers the result is a permutation of the map's keys, Keys always returns and its goroutines all end |
| KeysSnapshots.KeysWritesNothing | shared/patterns/concurrent.go:229-257 | Keys writes nothing: at every moment the map is what the callers' critical sections so far make of it |
| KeysSnapshots.KeysSeenAtTheLock | shared/patterns/concurrent.go:236-245 | in every run with writers, a key is among those seen if and only if its shard has been locked for reading and the map held the key at that moment |
| EndpointSelection.FoldIsBest | rpcscan/rpcswitcher.go:232-240 | the running choice is a usable result of minimal latency, or none when no result is usable |
| EndpointSelection.FoldCameFirst | rpcscan/rpcswitcher.go:235-240 | of several fastest results the one that came first is kept |
| EndpointSelection.OrderDoesNotMatter | rpcscan/rpcswitcher.go:235-240 | equal results in any order give the same latency, and the same endpoint when it alone has that latency |
| EndpointSelection.SelectsIfUsable | rpcscan/rpcswitcher.go:232-250 | with non-empty endpoint names an endpoint is selected if and only if some result is usable, and it is a fastest one |
| EndpointSelection.ScanEndpoints | rpcscan/rpcswitcher.go:428-440 | the sequential scan makes the choice of the fold over all endpoints |
| EndpointSelection.StepKeepsInv | rpcscan/rpcswitcher.go:190-240 | every step of probes, timeouts, senders, closer and collector keeps the account of results sent, buffered and received |
| EndpointSelection.NeverBlocks | rpcscan/rpcswitcher.go:191-221 | whoever wants to send finds room in the channel and finds it open |
| EndpointSelection.AlwaysProgress | rpcscan/rpcswitcher.go:195-240 | until the collector has finished, some goroutine can move |
| EndpointSelection.CollectorIsRight | rpcscan/rpcswitcher.go:190-249 | when the collector finishes, the channel was closed once, every endpoint has contributed exactly one result (its probe's or its timeout), and the choice is minimal among the usable ones, the first received of several |
| EndpointSelection.RunsAreShort | rpcscan/rpcswitcher.go:190-249 | every run has at most five steps per endpoint and two more |
| ScanOutcome.PickedOrTimedOut | rpcscan/rpcswitcher.go:203-221 | when the collector finishes, each endpoint's goroutine has taken its result or its timeout, one of the two and once, and has contributed the delivered latency or 0 accordingly |
| ScanOutcome.CollectorPicksFastest | rpcscan/rpcswitcher.go:190-249 | in every interleaving the choice is the fastest of the endpoints whose result was taken before their timeout, and none exactly if none of them has a usable latency |
| ScanOutcome.EveryOutcomeHappens | rpcscan/rpcswitcher.go:190-240 | for every choice of endpoints that answer in time and of their latencies, some run goes so and finishes |
| ClientTable.WrittenNumberIsFound | rpcscan/rpcswitcher.go:405-411 | a network whose number is configured in decimal is found by that number |
| Decimal.ParseFormat | rpcscan/rpcswitcher.go:184 | ParseUint reads back every 64-bit number written in decimal |
| Decimal.ParseUintIff | rpcscan/rpcswitcher.go:184 | a text is read as a number if and only if it is that number in decimal, possibly after zeros, and the number fits 64 bits |
| ClientTable.Target | rpcscan/rpcswitcher.go:405-411 | the first configured network with the number, no earlier one having it, or none has it |
| ClientTable.NetworkConfiguration.SwitchRPCEndpointImmediately | rpcscan/rpcswitcher.go:400-461 | a failed switch changes nothing; a successful one leaves the table that `ClientTable.SwitchPicksFastest` describes |
| ClientTable.SwitchPicksFastest | rpcscan/rpcswitcher.go:403-457 | after a successful switch the network's client, and no other, is replaced, by one dialled to an endpoint of the first configuration with that number whose latency is positive, below the greatest duration and minimal among the endpoints that answered, the first such endpoint if several tie |
| ClientTable.NetworkConfiguration.Refresh | rpcscan/rpcswitcher.go:282-301 | a tick replaces exactly the clients of reported networks that could be dialled |
| ClientTable.NetworkConfiguration.GetBestClient | rpcscan/rpcswitcher.go:365-374 | the table's client, or an error exactly if there is none |
| ClientTable.NetworkConfiguration.GetAllClients | rpcscan/rpcswitcher.go:388-397 | a copy of the table |
| ClientTable.ReportIsAPick | rpcscan/rpcswitcher.go:179-256 | in whatever order networks finish, a number is reported if and only if some network with it made a choice, and the report is such a network's choice |
| ClientTable.ReportIsTheLastPick | rpcscan/rpcswitcher.go:243-248 | of several networks with one number, the last to store its choice is reported |
| ClientTable.CollectorPicksAnEndpoint | rpcscan/rpcswitcher.go:231-250 | what a collector chooses is one of its network's endpoints |
| ClientTable.ScanReportsConfigured | rpcscan/rpcswitcher.go:173-257 | whatever the interleaving of every network's probes, closer and collector and the order of the networks: what a scan reports under a number is an endpoint configured for it, and a number is reported if and only if the collector of some network with it chose an endpoint |
| ClientTable.ScanReportsFastest | rpcscan/rpcswitcher.go:173-257 | what is reported under a number is, for some network with it, the fastest endpoint among those that answered in time |
| ClientTable.TickIsItsRenewals | rpcscan/rpcswitcher.go:282-301 | the steps of a tick, in whatever order networks are taken and with nothing in between, do what Refresh does with the scan's report |
| ClientTable.EventKeepsTable | rpcscan/rpcswitcher.go:283-298 | a switch, or one step of a tick whose endpoint comes from a run of the parallel scan, keeps every client's network and configured endpoint right and drops no network |
| ClientTable.EventChangesOne | rpcscan/rpcswitcher.go:283-298 | an event leaves the clients of all other networks alone |
| ClientTable.EveryRun | rpcscan/rpcswitcher.go:400-461 | in every run of switches and steps of ticks, interleaved in any way, the networks with a client never shrink, each client's network is its key, and its endpoint is configured for it |
| ClientTable.SwitchSucceedsIff | rpcscan/rpcswitcher.go:400-461 | a switch succeeds if and only if the network is configured, its first configuration has an endpoint of usable latency, and the chosen one can be dialled |
| ClientTable.SwitchThenBestClient | chainlink/client.go:69-79 | after a successful switch GetBestClient finds a client, whatever ticks and switches come in between |
| PriceCacheModel.AddFeedKeepsFeedsIff | pricefeed/price_cache.go:47-59 | the re-initialisation in AddFeed keeps the feed list if and only if the network has a data map, or its list is empty or is just this feed |
| PriceCacheModel.OpTouchesOne | pricefeed/price_cache.go:41-145 | AddFeed and UpdatePrice leave other networks' feeds and data and all other prices alone; UpdatePrice stores its price, AddFeed none |
| PriceCacheModel.OpKeepsAgreement | pricefeed/price_cache.go:41-61 | AddFeed and UpdatePrice keep data and feeds in agreement, register their feed, and only append to feed lists |
| PriceCacheRuns.UpdateUnlocksIff | pricefeed/price_cache.go:147-153 | UpdatePrice gives up the lock to prune if and only if the estimate after its write exceeds ten mebibytes |
| PriceCacheRuns.EveryInterleaving | pricefeed/price_cache.go:123-154 | in every interleaving of AddFeed, UpdatePrice (its write section and the separate prune section) and PruneCache calls, the cache is at every moment what the writes make of an empty one in the order of their first sections, and each call past that section has written exactly once |
| PriceCacheRuns.EveryInterleavingAgrees | pricefeed/price_cache.go:129-145 | over every such run: no feed twice, every stored price has its feed, no feeds without a data map, and earlier feed lists are prefixes of later ones |
| PriceCacheRuns.EveryInterleavingIsAMap | pricefeed/price_cache.go:64-80 | a lookup at any moment of such a run, also between the sections of a call, gives the last update of that network, source and identifier, for colon-free sources |
| PriceCacheModel.PrefixedIsInjective | pricefeed/price_cache.go:36-38 | for sources without a colon, prefixed identifiers are equal exactly if source and identifier are |
| PriceCacheModel.CollisionIff | pricefeed/price_cache.go:36-38 | for any two sources, some identifiers collide if and only if one source with its colon is a prefix of the other with its colon |
| PriceCacheModel.CacheIsAMap | pricefeed/price_cache.go:64-80 | over every sequence of writes with colon-free sources, the cache holds for network, source and identifier exactly the last update of that triple |
| PriceCacheModel.SourceViewIsExact | pricefeed/price_cache.go:101-120 | the view by source holds exactly that source's last updates under their own identifiers, none of another source |
| PriceCache.PriceCache.AddFeed | pricefeed/price_cache.go:41-61 | the whole new contents |
| PriceCache.PriceCache.GetPrice | pricefeed/price_cache.go:64-80 | the stored price, or an error exactly if there is none |
| PriceCache.PriceCache.GetAllPricesBySource | pricefeed/price_cache.go:101-120 | the returned map is the view by source, both directions |
| PriceCache.PriceCache.UpdatePrice | pricefeed/price_cache.go:123-154 | without other callers in between: one map update and one registration, also when the cache is over its limit and prune runs |
| PriceCache.PriceCache.EstimateSizeUnlocked | pricefeed/price_cache.go:165-194 | the loops compute the estimate, in whatever order maps are iterated |
| PriceCache.PriceCache.CollectEntries | pricefeed/price_cache.go:211-231 | one entry for every stored price and no other, and their total size |
| PriceCache.PriceCache.SortByTimestamp | pricefeed/price_cache.go:238-241 | a permutation in which no entry precedes an older one |
| PriceCache.PriceCache.LatestEntries | pricefeed/price_cache.go:243-250 | for every key in the list an entry of that key that none of that key is later than |
| PriceCache.PriceCache.RemoveOutdated | pricefeed/price_cache.go:254-278 | the data that is left when outdated entries are taken out from the oldest until the excess is gone |
| PricePruning.RemovesUntilEnough | pricefeed/price_cache.go:254-278 | for any entries, one per stored price, and any latest entries: what is left is everything but the outdated entries up to the first at which they weigh as much as the excess, or all of them, and a network goes exactly with its last price |
| PriceCache.LatestStay | pricefeed/price_cache.go:263-266 | whatever the sizes, that takes nothing out of a list without outdated entries |
| PriceCache.LatestKeyIsInjective | pricefeed/price_cache.go:246 | the key "%d:%s" determines network and identifier, even if the identifier contains colons or digits |
| PriceCache.PruneChangesNothing | pricefeed/price_cache.go:198-283 | whatever the order in which prune meets, sorts and remembers the entries, what it may leave is the whole cache |
| PriceCache.PriceCache.Prune | pricefeed/price_cache.go:198-283 | prune leaves what its sorted entries and their latest ones leave, which is every stored price, for every cache, size and timestamps |
| PriceCache.EstimateExceedsTotal | pricefeed/price_cache.go:165-194 | the estimate exceeds prune's total by exactly 8 per network with data plus the feed lists |
| PriceCache.UpdateChangesEstimate | pricefeed/price_cache.go:123-145 | an update changes the estimate by the new entry's size minus the replaced one's, plus the overhead of a new network and a new feed |
| Regexp.MatchSound | rpcscan/jsfilescan.go:77-106 | a match of the greedy matcher is in the pattern's language and is a prefix of the text |
| Regexp.MatchComplete | rpcscan/jsfilescan.go:77-106 | for deterministic patterns, if some prefix is in the language a match is found, and none is longer |
| JsToJson.RuleMatchesIff | rpcscan/jsfilescan.go:77-109 | for each of the converter's eight rewrites and every text: a match is found if and only if some prefix is in the language of the pattern, and it is a longest such prefix |
| Regexp.MatchExact | rpcscan/jsfilescan.go:77-106 | a text that fits a pattern part by part is matched part by part |
| JsToJson.ConvertJSToJSON | rpcscan/jsfilescan.go:75-113 | the reassigned local and the suffix-trimming loop compute the chain of rewrites |
| JsRewrites.SemicolonRewrite | rpcscan/jsfilescan.go:81 | on every text a semicolon goes if white space and a closing bracket follow it, and every other character stays |
| JsRewrites.CommaRewrite | rpcscan/jsfilescan.go:95 | so does a comma |
| JsRewrites.BraceCommaRewrite | rpcscan/jsfilescan.go:98 | on every text a comma goes between a closing brace and, after white space, a closing square bracket, and every other character stays |
| JsRewrites.NameRewrite | rpcscan/jsfilescan.go:103 | on every text a word with its colon is quoted after a comma or opening brace and white space, and every other character stays |
| JsTheorem.HeaderGoes | rpcscan/jsfilescan.go:77 | the export header, with any white space in it, goes wherever it stands |
| JsRewrites.StripIsExact | rpcscan/jsfilescan.go:84-86 | the loop takes the semicolons at the end, all of them and nothing else |
| JsRewrites.TrimIsExact | rpcscan/jsfilescan.go:87 | TrimSpace takes white space from both ends and leaves none there |
| JsRewrites.OutputIsClean | rpcscan/jsfilescan.go:91-110 | whatever the text, the output holds no single quote and no semicolon |
| JsRewrites.SemicolonBeforeComma | rpcscan/jsfilescan.go:81-95 | a semicolon behind a trailing comma goes early enough for the comma to go, too |
| JsRewrites.TwoCommas | rpcscan/jsfilescan.go:95-98 | two commas behind an object in an array both go, one at each line |
| JsFirstName.FirstNameNeverApplies | rpcscan/jsfilescan.go:103-106 | on every text, the rule for the first property changes nothing after the rule for property names |
| JsStages.NodeStage | rpcscan/jsfilescan.go:81-109 | each rewrite, applied to a literal of the fragment with text after it, rewrites the literal as a whole and goes on after it |
| JsTheorem.UnwrapsDocument | rpcscan/jsfilescan.go:76-87 | header, outer white space and trailing semicolons are removed from every document of the fragment |
| JsTheorem.ConvertsDocument | rpcscan/jsfilescan.go:75-113 | the output for every document of the fragment is its literal with double quotes, quoted names and no trailing commas |
| JsTheorem.ReadsNode | rpcscan/jsfilescan.go:52-73 | the JSON reader takes a literal in that form for the value it means, and rejects it if a name is left unquoted |
| JsTheorem.ConversionPreservesMeaning | rpcscan/jsfilescan.go:75-113 | for every literal of the fragment in every style, the output parses to the value written if no unquoted name is separated from its colon, and is not JSON otherwise |
| JsTheorem.EveryValueIsWritten | rpcscan/jsfilescan.go:75-113 | every value over fragment strings has a document in the fragment whose conversion parses to it |
| JsTheorem.SpacedNameIsLost | rpcscan/jsfilescan.go:103 | the conversion of `{a :1}` is not JSON |
| Sweep.WrittenKeyIff | pricefeed/chainlink_monitor.go:172-180 | a feed's price is stored under the feed's own key if and only if it is a Chainlink feed |
| Sweep.Plan | pricefeed/chainlink_monitor.go:160-194 | the spawning loops start one goroutine for every registered feed of every network with a client, and no other |
| Sweep.StepKeepsCounts | pricefeed/chainlink_monitor.go:157-195 | every step keeps semaphore, wait group and attempts in step with the goroutines' phases |
| Sweep.EverySweep | pricefeed/chainlink_monitor.go:139-195 | in every interleaving at most ten fetches are in flight, the sweep always gets on and ends within six steps per feed and one more, and when Wait returns every planned feed was attempted exactly once, all goroutines are gone and the semaphore is empty |
| SweepPrices.PriceAtAnyMoment | pricefeed/chainlink_monitor.go:174-180 | at any moment of any interleaving the cache holds under a key what the goroutine of the last write under it fetched, and the old price if there was no write |
| SweepPrices.SweepStoresWhatItFetched | pricefeed/chainlink_monitor.go:157-195 | when Wait returns, every key for which a fetch succeeded holds a price fetched for it, and every other key its old price |
| SweepPrices.EveryFetchIsStored | pricefeed/chainlink_monitor.go:174-180 | where no other job has the key, exactly the price that the job fetched |
| SweepPrices.ChainlinkSweepIsExact | pricefeed/chainlink_monitor.go:139-195 | with Chainlink feeds only, every feed was fetched once, and holds the fetched price, or its old one if that fetch failed |
| Sweep.WriteKeepsFeedsIff | pricefeed/price_cache.go:135-145 | a price update leaves the feed lists alone if and only if its key is registered |
| Sweep.SweepKeepsFeedsIff | pricefeed/chainlink_monitor.go:139-195 | every interleaving of a sweep leaves the feed lists as they are if and only if every planned feed is written under a registered key |
| Sweep.PythFeedIsTakenForChainlink | pricefeed/chainlink_monitor.go:172-180 | with "pyth:x" as the only feed some sweep changes the feed lists: it is written under "chainlink:pyth:x" |
| Sweep.ChainlinkSweep | pricefeed/chainlink_monitor.go:139-195 | if all planned feeds are Chainlink feeds, every interleaving leaves the feed lists as they are and writes under registered keys only |
| ChainlinkFetch.IsErrorCode32097 | chainlink/client.go:120-131 | of the four texts looked for, "32097" and "revert" decide |
| ChainlinkFetch.CLPriceMonitor.UpdateClient | pricefeed/chainlink_monitor.go:54-59 | replaces one client |
| ChainlinkFetch.CLPriceMonitor.AdapterGetBestClient | pricefeed/chainlink_monitor.go:364-377 | returns the configured client and hands exactly that one to the monitor; changes nothing without one |
| ChainlinkFetch.CLPriceMonitor.FetchPriceDataWithRetry | chainlink/client.go:53-116 | result, both client tables and the calls made are those of the attempts, in every error branch |
| ChainlinkFetch.CLPriceMonitor.FetchPriceData | chainlink/client.go:35-50 | refuses a missing client or feed without any call; reads a MaxRetries of 0 as 1 |
| ChainlinkFetch.SwitchLeavesAClient | chainlink/client.go:68-79 | a switch during an attempt succeeds independently of the client table, and then the lookup finds a client whatever other goroutines do: the branch for a missing client is dead |
| ChainlinkFetch.FetchIsExact | chainlink/client.go:35-116 | round data is called for exactly until the first attempt that is not retried, at most 1 + max(0, MaxRetries) times, with 0 read as 1; the fetch returns that attempt's error, or the round number, answer and times that it read, with the network and feed asked for and minus the decimals, minus 8 if they could not be read |
| ChainlinkFetch.FetchRefuses | chainlink/client.go:36-41 | without a client or a feed address an error is returned, nothing is called and no table changes |
| ChainlinkFetch.CLPriceMonitor.FetchForFeed | pricefeed/chainlink_monitor.go:105-136 | the monitor's fetch, with the outcome that `ChainlinkFetch.MonitorFetches` describes |
| ChainlinkFetch.MonitorFetches | pricefeed/chainlink_monitor.go:105-136 | without a client of the network nothing is called; otherwise the monitor's client makes the first call, and at most one other follows, none without a network configuration |
| ChainlinkFetch.FetchIsOrderly | chainlink/client.go:62-93 | between two calls there is exactly one switch, successful, and one lookup that gives the next call its client, of the right network and a configured endpoint; the monitor's own map never loses a network and stays right if other goroutines hand it right clients; after a success it holds the client that answered unless others handed it one for that network |
| HermesRequest.HttpRequest | pyth/client.go:56-109 | requests, pauses and outcome for every number of retries: it stops at the first attempt that is not worth a retry or at the last one; with negative retries nothing is sent and nil is returned |
| HermesRequest.LastAttempt | pyth/client.go:62-105 | that attempt is within the retries, all before it were worth a retry, and it is the last or is not |
| HermesRequest.SucceedsIff | pyth/client.go:62-105 | the loop succeeds if and only if some attempt within the retries is answered with a status from 200 to 299 and a body that decodes, and every one before it got no answer or a status outside that range |
| HermesRequest.PauseDoublesIff | pyth/client.go:59-80 | the pause before retry k+1 is the first backoff times 2^k milliseconds if and only if those nanoseconds fit an int64 |
| HermesRequest.PausesDoubleIff | pyth/client.go:59-80 | all pauses of a call double if and only if the last one fits |
| HermesRequest.AllPausesDoubleIff | pyth/client.go:59-80 | no pause overflows for any first backoff from 100 to 199 if and only if there are at most 36 retries |
| HermesRequest.TotalPause | pyth/client.go:59-92 | when all attempts fail without overflow the pauses add up to b * (2^r - 1) milliseconds |

## Left out

- Dialling, reading, HTTP, contract calls, files and YAML: their outcomes are inputs. Nothing is said about wall-clock time; timestamps are only compared.
- The unlocked reads and increments of the reconnect count are single atomic steps. The Go memory model is not modelled.
- Subscriptions, message parsing and handlers of the WebSocket client; a resubscription only succeeds or fails. Deadlines and the closing of sockets have no effect on the protocol state.
- `Iter` is the iteration with capacity 0. `IterCb`, `IsEmpty` and `MarshalJSON` add nothing beyond the operations modelled.
- Keys and identifiers are sequences of bytes or characters; `len` of a string with multi-byte characters is not distinguished from its number of characters.
- Sizes in the price cache are unbounded integers; int64 overflow of a total is not modelled. `EstimatePriceInfoSize` is an arbitrary function of the price.
- PriceCache.PriceCache.SortByTimestamp: `sort.Slice` is modelled by selecting oldest entries; only that the result is a sorted permutation is used.
- JsTheorem.ConversionPreservesMeaning: strings in the fragment hold no quotes, backslashes, commas, semicolons, brackets or control characters, and not the export header; names are word characters. Escapes in JSON strings are therefore outside the reader, too. Duplicate names are kept as written.
- Regular expressions are limited to rows of character classes with `*` and `+`, which all patterns of the converter are; the alternation and backtracking of full regular expressions are not modelled.
- `convertToRPCConfig`, the chain-registry loaders and the wrapper goroutine over networks: the loaders are file handling; the order in which networks report is covered by `ClientTable.ScanReportsConfigured`.
- The delay before a Chainlink retry, and the time at which a price was made.
- Attempt counters are unbounded; a retry limit near the largest int is not modelled.
- The ticker loops of the monitors, status output, display of prices, configuration loading, network metadata, legacy adapters, the streaming reader, generated contract bindings and the satoshi conversion.
