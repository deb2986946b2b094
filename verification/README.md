# Verified models of bintrade's concurrent core

bintrade is a Binance client library.  Most of it is glue around JSON, TLS and HTTP; this project models the parts
that are state machines or exact arithmetic, and proves what they promise.

- **The SPSC ring buffer** (`Counters`, `SpscQueues`, `SpscProtocol`).  A class with the array, the wrapping 64-bit
  counters and the mask; and the same code under one producer and one consumer thread, at the grain of single loads,
  slot accesses and stores, where a load of the other side's counter may return any value since the last one observed.
  Main results: `Linearizable`, `SizeApproxMeaning`.
- **Queued dispatch** (`Dispatch`, `MarketStreams`), built on the micro-steps of the ring buffer: the I/O thread
  pushes, the consumer pops and dispatches, stop clears a flag and joins.  Main results: `QueuedRefinesInline`,
  `DrainEnds`, `DispatchesSoon`.
- **The HTTP connection pool and retry loop** (`ConnectionPools`, `HttpRequests`, `HttpExecute`, `HttpEffects`): any
  number of requests on one event loop, interleaved at their suspension points.  Main results: `LeaseSafety`,
  `PoolEffects`, `PoolSizeBounds`, `ExecuteOutcome`, `RetryLooksAtThePool`, `RetryFollowsReuseIff`.
- **The WebSocket client** (`Backoffs`, `WebSocketClient`, `WebSocketTraces`): read loop, ping timer, reconnect chain
  and a stop flag that another thread may set between any two steps of a handler.  Main results:
  `DeliversWhatWasRead`, `Conservation`, `SingleActivityIffNoPingFailure`, `OutagesFollowBackoff`, `StoppingIsPrompt`,
  `DisconnectReturns`, `StaysConnectedIffConnecting`.
- **The listen key** (`ListenKey`): the keep-alive thread, its mutex and condition variable, against start and stop.
  Main results: `KeyLifecycle`, `CallsFollowLabels`, `JoinCompletes`, `RefreshedBeforeExpiry`.
- **Signed queries** (`SignedQuery`), **URLs** (`Urls`, `Strings`) and **clock ticks** (`Clock`).

Protocols are transition systems on values: `Enabled` says when a labelled step may be taken, `Next` what it does, and
`Legal` and `Run` extend both to sequences of steps, so a lemma about every legal run is about every interleaving. The
environment's choices (which thread moves, whether a connect succeeds, how stale a load is, when a timer fires) are in
the labels.  Fields such as `log`, `trail`, `used`, `hist`, `calls` and the counters of `ListenKey` record history
and no transition depends on them; the lengths of `accepted` and `popped` are the ring buffer's counters as they would be
without wrap-around, and bound the values that a stale load may return.

`dafny verify dfyconfig.toml` checks the whole project.

## Where the code differs from what is said about it

The models follow the code.

- A request is retried after a transport error when the pool held more than one slot as it was sent, not when its
  connection was a reused one (src/rest/detail/http_client.cpp:343 against the comments at lines 332-335 and 363):
  `FreshConnectionIsRetried`, `ReusedConnectionIsNotRetried`; `ExecuteOutcome` is the exact rule and
  `RetryFollowsReuseIff` says when the two agree.  Requests made one after another are never retried:
  `SequentialRequestsAreNotRetried`.
- After connecting, `acquire_connection` finds its slot by position, both when it fails (`pop_back`, line 198) and when
  it succeeds (the reference kept across the suspension, lines 192 and 201).  Leases are safe exactly while connects
  end undisturbed: `LeaseSafety`, `OverlappingConnectsBreakLeases`, `OverlappingConnectLosesItsSlot`.
- A failed ping starts a reconnect chain beside the outstanding read: `PingFailureDoublesReads`.
- `disconnect` may return with the client reporting itself connected: `ConnectedAfterDisconnect`;
  `StaysConnectedIffConnecting` says exactly when.
- `size_approx` called from a third thread may exceed the capacity: `SizeApproxExceedsCapacity`; `SizeApproxMeaning`
  says exactly when.
- A message pushed while `stop_consumer` drains the queue may be lost although its push completed before the last,
  empty pop: `StaleLoadLosesMessage`; `QueuedRefinesInline` says exactly when queued and inline mode agree.
- The signed string and the sent string agree only for equal iteration orders: `SignedStringIsSent`.
- The header says the listen key is renewed every 30 minutes with PUT; the code renews every 25 minutes with POST.  An
  exception from an automatic renewal leaves the keep-alive thread's function, which ends the process.

## Model

| member | source | states |
|---|---|---|
| Counters.ValidCapacityIsPowerOfTwo | include/bintrade/core/spsc_queue.hpp:40 | the static assertion on the capacity admits exactly the powers of two below 2^64 |
| Counters.MaskIsModulo | include/bintrade/core/spsc_queue.hpp:118 | for every number, bitwise and with capacity minus one is reduction modulo the capacity |
| Counters.SlotOfCounter | include/bintrade/core/spsc_queue.hpp:67 | the slot computed from the wrapped counter is the unbounded counter modulo the capacity, past any number of wrap-arounds |
| Counters.CountIsExact | include/bintrade/core/spsc_queue.hpp:63 | the wrapped difference of the counters is the exact element count, and equal words mean an empty queue |
| SpscQueues.SpscQueue.constructor | include/bintrade/core/spsc_queue.hpp:44 | a new queue of a valid capacity is empty |
| SpscQueues.SpscQueue.TryPush | include/bintrade/core/spsc_queue.hpp:59-86 | appends the value iff fewer than capacity elements are queued, else leaves counters and buffer as they were |
| SpscQueues.SpscQueue.TryPop | include/bintrade/core/spsc_queue.hpp:90-101 | returns and removes the oldest element, or nothing iff the queue is empty, whatever the moved-from slot keeps |
| SpscQueues.SpscQueue.SizeApprox | include/bintrade/core/spsc_queue.hpp:105-109 | with no other thread at work, the exact length |
| SpscQueues.SpscQueue.Drain | include/bintrade/core/spsc_queue.hpp:46-49 | terminates, empties the queue and yields all elements in order |
| SpscProtocol.StepInv | include/bintrade/core/spsc_queue.hpp:59-101 | every load, slot access and store of either thread keeps the invariant that ties words, slots, observations and history together |
| SpscProtocol.Linearizable | include/bintrade/core/spsc_queue.hpp:59-101 | in every interleaving, stale loads included, the results replay on an atomic bounded queue whose contents are the accepted values not yet popped; popped is a prefix of accepted, each exactly as logged; with fresh loads every rejection met a full queue and every empty pop an empty one |
| SpscProtocol.SlotAccessesAreOrdered | include/bintrade/core/spsc_queue.hpp:60-68 | before a slot write every earlier read of that slot was published by the acquired tail, before a slot read every earlier write by the acquired head; a write finds its slot free, a read finds the oldest value, and the two never coincide |
| SpscProtocol.RejectionIsGenuineIffFresh | include/bintrade/core/spsc_queue.hpp:61-65 | a push is rejected iff the observed tail is a capacity behind, and the queue is then full iff the load was fresh |
| SpscProtocol.EmptyIsGenuineIffFresh | include/bintrade/core/spsc_queue.hpp:92-96 | a pop reports empty iff the observed head equals the tail, and the queue is then empty iff the load was fresh |
| SpscProtocol.SpuriousRejectionExists | include/bintrade/core/spsc_queue.hpp:61-65 | a run in which a stale load rejects a push into an empty queue |
| SpscProtocol.SizeApproxMeaning | include/bintrade/core/spsc_queue.hpp:103-109 | with any steps between its two loads, and either load stale, the answer is the difference of the loaded counters modulo 2^64; less than a word apart it is within the capacity iff that difference is, with fresh loads iff the tail has not passed the loaded head; the producer never gets less than the queue holds, the consumer never more, and fresh loads give both a size the queue really had |
| SpscProtocol.SizeApproxExceedsCapacity | include/bintrade/core/spsc_queue.hpp:105-109 | a run in which one value passes between the two loads and the answer is 2^64 - 1 |
| Dispatch.ActionInv | src/ws/market_stream.cpp:55-98 | every step of the I/O thread, the consumer and the stopping thread keeps queue, phase and delivery history consistent |
| Dispatch.QueuedRefinesInline | src/ws/market_stream.cpp:55-98 | in every run what is dispatched is a prefix of what was accepted; when stop has returned it includes all pushes ordered before running was cleared; with no push under way it equals what inline mode dispatches iff nothing was rejected, the consumer's last head load was fresh and nothing was pushed after its last, empty pop; it is enough that nothing was rejected and every push was ordered before the clear; nothing is rejected while no more messages than the capacity are delivered |
| Dispatch.StopLosesNothing | src/ws/market_stream.cpp:91-98 | for any run before and any run after running is cleared, the pushes ordered before the clear are dispatched at the join, in order |
| Dispatch.StaleLoadLosesMessage | src/ws/market_stream.cpp:84-87 | a run in which a push completes before the drain's last pop, that pop's head load is stale, and the message is never dispatched |
| Dispatch.DrainEnds | src/ws/market_stream.cpp:77-87 | once running is cleared, the consumer's steps are bounded by the messages queued at that moment and delivered later, whatever it was doing |
| Dispatch.DispatchesSoon | src/ws/market_stream.cpp:77-87 | while a message waits, running or draining, any six consumer steps with fresh head loads dispatch one |
| Dispatch.ConsumerNeverStuck | src/ws/user_stream.cpp:66-78 | until it exits, the consumer thread has an enabled step in every state the invariant allows |
| MarketStreams.QueueCapacityIsValid | src/ws/market_stream.cpp:23 | the stream's queue holds 4096 messages, which satisfies the queue's static assertion |
| MarketStreams.MarketStream.constructor | src/ws/market_stream.cpp:33 | a new stream is inline, unsubscribed and without a queue |
| MarketStreams.MarketStream.SetDispatchMode | src/ws/market_stream.cpp:45-50 | takes effect iff not yet subscribed, and is refused without effect otherwise |
| MarketStreams.MarketStream.Subscribe | src/ws/market_stream.cpp:55-76 | starts a consumer on an empty queue iff the mode is queued |
| MarketStreams.MarketStream.OnMessage | src/ws/market_stream.cpp:60-63 | inline dispatches at once; queued appends to the waiting messages, or drops the message iff the queue is full |
| MarketStreams.MarketStream.ConsumerRound | src/ws/market_stream.cpp:77-83 | one round moves the oldest waiting message, if any, to the dispatched ones and loses none |
| MarketStreams.MarketStream.StopConsumer | src/ws/market_stream.cpp:91-98 | dispatches everything waiting, in order, and is a no-op when not running |
| ConnectionPools.FirstIdle | src/rest/detail/http_client.cpp:175-189 | the first idle slot in the wanted connection state, or none if there is none |
| ConnectionPools.ReleaseMeaning | src/rest/detail/http_client.cpp:208-225 | an unknown slot changes nothing; without keep-alive or above the pool size exactly that slot goes; otherwise only its lease ends |
| ConnectionPools.ConnectionPool.constructor | src/rest/detail/http_client.cpp:134-144 | the pool starts empty |
| ConnectionPools.ConnectionPool.TakeIdle | src/rest/detail/http_client.cpp:175-189 | the scan leases the first idle slot in the wanted state and nothing else, or reports that there is none |
| ConnectionPools.ConnectionPool.ReleaseConnection | src/rest/detail/http_client.cpp:208-225 | the search and erase loop computes the specified release and keeps slots distinct |
| HttpRequests.NoIdleUnconnected | src/rest/detail/http_client.cpp:182-189 | while idle slots are connected, the branch for an idle unconnected slot is never taken |
| HttpRequests.ActionLease | src/rest/detail/http_client.cpp:173-225 | from any consistent state, an action keeps requests in flight and slots in use in one-to-one correspondence iff it is not a connect whose slot has moved |
| HttpRequests.LeaseSafety | src/rest/detail/http_client.cpp:173-225 | over whole runs, leases correspond at every moment iff every ended connect found its slot where the code looks; then every held slot is pooled and in use, and every idle one is connected |
| HttpRequests.ExclusiveConnectsAreSafe | src/rest/detail/http_client.cpp:191-201 | if nothing else happens while a request connects, every connect is undisturbed |
| HttpRequests.OverlappingConnectsBreakLeases | src/rest/detail/http_client.cpp:191-201 | a run of two overlapping connects in which the first failure discards the second request's slot |
| HttpRequests.OverlappingConnectLosesItsSlot | src/rest/detail/http_client.cpp:192-202 | a run of two overlapping connects in which the first succeeds through a reference that the second one's append left dangling |
| HttpExecute.PoolSizeBounds | src/rest/detail/http_client.cpp:173-225 | in every run the pool exceeds its size only with every slot in use and never exceeds the peak of slots in use; with undisturbed connects a pool without requests in flight is within its size and has no slot in use |
| HttpExecute.ExecuteOutcome | src/rest/detail/http_client.cpp:336-381 | in every run a second attempt is made iff the first failed in transport with more than one slot in the pool or on an unconnected slot; any other outcome, a response of any status included, and any outcome of the second attempt ends the request; at most two sends; releases equal acquires when it has finished; with undisturbed connects the number of slots alone decides |
| HttpExecute.ReusedIffNotConnected | src/rest/detail/http_client.cpp:173-203 | with undisturbed connects, the slot a request gets without connecting has carried a request before and the slot it connects has not |
| HttpExecute.RetryFollowsReuseIff | src/rest/detail/http_client.cpp:332-371 | after a first transport failure the request is retried just when its connection was reused, iff the pool held more than one slot just when the connection was reused |
| HttpExecute.SequentialRequestsAreNotRetried | src/rest/detail/http_client.cpp:336-371 | if no request arrives before the previous one has finished, connects are undisturbed, the pool holds at most one slot, and no request is sent twice |
| HttpExecute.FreshConnectionIsRetried | src/rest/detail/http_client.cpp:343-371 | a run in which a connection on which nothing was sent before fails, and the request makes its second attempt |
| HttpExecute.ReusedConnectionIsNotRetried | src/rest/detail/http_client.cpp:343-369 | a run in which a connection that carried an earlier request fails in a pool of one, and the request is given up |
| HttpEffects.PoolEffects | src/rest/detail/http_client.cpp:173-225 | in every run with undisturbed connects: an arriving request takes the first free slot, or appends one iff there is none; a successful connect connects its own slot, a failed one removes it; after a response the slot stays, idle, iff keep-alive holds and the pool is within its size, else it is gone; after an error it is gone and a retry acquires from the rest; every other slot keeps its state and its place |
| HttpEffects.DiscardedSlotNeverReturns | src/rest/detail/http_client.cpp:349-377 | after a transport error, another error or a closing response, no request ever holds that slot again |
| HttpEffects.MarksTellThePool | src/rest/detail/http_client.cpp:342-344 | in any state, a request that an action starts to send is marked with the size of the resulting pool, its slot's connection state there and whether the slot was used before, and is retriable by just those |
| HttpEffects.RetryLooksAtThePool | src/rest/detail/http_client.cpp:342-371 | whatever other requests do in between, a first transport error leads to a second attempt iff the pool held more than one slot, or the slot was unconnected, when the request was sent; with undisturbed connects iff it held more than one |
| Backoffs.DelayIsCappedExponential | src/ws/detail/websocket_client.cpp:307 | attempt k after the first waits base times 2^k seconds, at most 60 |
| Backoffs.JitterSurvivesTruncation | src/ws/detail/websocket_client.cpp:67-72 | after truncation to milliseconds a jittered wait is at most 5/4 of the delay, and never below 3/4 of it iff the delay is a multiple of 4 ms |
| Backoffs.JitterOfSeconds | src/ws/detail/websocket_client.cpp:67-72 | the wait for a delay of whole seconds lies between 3/4 and 5/4 of it, truncation included |
| Backoffs.TotalWaitIsBounded | src/ws/detail/websocket_client.cpp:247-311 | n attempts of a chain wait at most 5/4 of the base plus 60 seconds for each attempt after the first |
| WebSocketClient.StepSingle | src/ws/detail/websocket_client.cpp:178-311 | a step keeps a single read or reconnect activity iff it is not a ping failing beside one, which makes two |
| WebSocketClient.SingleActivityIffNoPingFailure | src/ws/detail/websocket_client.cpp:178-311 | over whole runs there is exactly one activity until give-up or stop, at most one give-up, and the client is connected just while that activity is no reconnect chain, iff no ping failed beside it |
| WebSocketClient.OutagesFollowBackoff | src/ws/detail/websocket_client.cpp:247-311 | in such runs the waits of an outage are those of the backoff rule, at most the configured number are armed, and a give-up comes once and after all of them |
| WebSocketClient.OutageWaitsAreBounded | src/ws/detail/websocket_client.cpp:260-307 | in such runs every jittered wait of an outage lies between 3/4 and 5/4 of its delay, their number is within the configured one and their sum within 5/4 of the interval plus a minute for each further attempt |
| WebSocketClient.StoppingIsPrompt | src/ws/detail/websocket_client.cpp:368-390 | wherever the stop flag falls, at most one more message or reconnect attempt goes through and none after the join; no read is started after the flag; at most one ping timer is pending; the joined client reports connected iff that attempt succeeded late |
| WebSocketClient.StepPingLive | src/ws/detail/websocket_client.cpp:222-243 | before the stop flag, no step but a failed ping ends the ping chain, and none leaves it dead outside a reconnect chain without a give-up |
| WebSocketClient.PingsGoOn | src/ws/detail/websocket_client.cpp:222-243 | in every run not told to stop, a client that has not given up is pinging or reconnecting; one without a ping failure beside an activity keeps pinging even after giving up |
| WebSocketClient.PingFailureDoublesReads | src/ws/detail/websocket_client.cpp:222-243 | a run in which a failed ping leads to two outstanding reads |
| WebSocketClient.ConnectedAfterDisconnect | src/ws/detail/websocket_client.cpp:368-394 | a run in which disconnect has returned and the client reports itself connected |
| WebSocketClient.StaysConnectedIffConnecting | src/ws/detail/websocket_client.cpp:368-394 | after any run, some schedule lets disconnect return with the client connected iff a handler was connecting when disconnect stored the stop flag |
| WebSocketClient.DisconnectReturns | src/ws/detail/websocket_client.cpp:368-390 | once the stop flag is set, every schedule ends within a number of steps fixed by the state at that moment, and until disconnect has joined, one of the threads can move without the network or a timer |
| WebSocketTraces.DeliversWhatWasRead | src/ws/detail/websocket_client.cpp:188-217 | in every run the callback got exactly the texts of the error-free reads whose handler found the stop flag clear, in order and once each, but for one about to be delivered; which those are is read off the labels |
| WebSocketTraces.Conservation | src/ws/detail/websocket_client.cpp:178-311 | in every run, but for handlers that the stop flag ends: each connection carries one read chain, ended only by a failed read; a reconnect chain starts with each failed read and each failed ping and nothing else, makes a further attempt after each failed connect, and ends only in a connect or a give-up; each fired timer makes one attempt; the ping timer is armed once for each connection and after each expiry unless that ping failed; until the flag a ping is sent for each expiry that finds the client connected |
| WebSocketTraces.EveryTimerIsScheduled | src/ws/detail/websocket_client.cpp:247-311 | in every run, failed pings included, each reconnect timer belongs to an attempt within the limit and has that attempt's delay |
| WebSocketTraces.CancelEndsPingsIffNotArming | src/ws/detail/websocket_client.cpp:376-379 | after disconnect has cancelled the ping timer, one may be pending again iff a handler was then on its way to arm it |
| ListenKey.StepInv | src/ws/user_stream.cpp:176-251 | every step of either thread keeps call history, lock ownership, wake-ups, renewal pace and the end of the thread consistent |
| ListenKey.KeyLifecycle | src/ws/user_stream.cpp:176-251 | in every run the calls are one create, renewals and at most one delete, last; before the stop flag automatic renewals and timed-out sleeps match one to one; at most one renewal begins after it; a joining stop never waits for an unnotified sleeper; when the stop that ended the thread returns, the key is deleted and forgotten |
| ListenKey.CallsFollowLabels | src/ws/user_stream.cpp:176-251 | in every run the keep-alive thread was started iff create and connect succeeded, and without it nothing is renewed automatically; there is a key iff the create succeeded and no delete has ended; besides create and delete the calls are the automatic renewals and the manual ones made with a key; every sleep that timed out with the flag clear is renewed; the process has ended iff an automatic renewal threw |
| ListenKey.StopLeavesNoKey | src/ws/user_stream.cpp:227-251 | from any state, a failed start included, a stop returns with no key and no thread left, having deleted the key iff one was created |
| ListenKey.WholeLife | src/ws/user_stream.cpp:176-251 | a run that creates the key, renews it after a timed-out sleep, joins the thread and deletes the key |
| ListenKey.JoinMakesProgress | src/ws/user_stream.cpp:204-240 | while stop waits, the keep-alive thread can move, and each move, spurious wake-ups included, brings it closer to its end |
| ListenKey.JoinCompletes | src/ws/user_stream.cpp:227-240 | under any schedule the thread takes at most four steps before the join can complete, unless a renewal throws |
| ListenKey.TimedRunsAreRuns | src/ws/user_stream.cpp:201-216 | a run with a clock is, without it, a run of the two threads with the same end |
| ListenKey.RefreshesAreRenewals | src/ws/user_stream.cpp:201-225 | the refreshes of such a run are the create and one for each automatic renewal that has ended |
| ListenKey.RefreshedBeforeExpiry | src/ws/user_stream.cpp:201-216 | with REST calls and connect of at most L minutes and a thread at most S minutes late, the key is refreshed within 60 minutes in every run until it is stopped, spurious wake-ups included, iff 25 + 3L + 2S < 60 |
| SignedQuery.BuildQueryString | src/rest/detail/http_client.cpp:79-93 | the loop with its emptiness test yields the items joined by single ampersands, for empty keys and values too |
| SignedQuery.ParseOfJoin | src/rest/client.cpp:154-163 | parsing the built string gives the pairs back iff keys are free of ampersand and equals sign and values of ampersand |
| SignedQuery.QueryRoundTrip | src/rest/detail/http_client.cpp:79-93 | for every such map and iteration order the map is recovered |
| SignedQuery.HexEncode | src/auth/signer.cpp:27-32 | the loop yields the padded base-16 text of every byte in order |
| SignedQuery.HexRoundTrip | src/auth/signer.cpp:27-32 | the text decodes to the digest and has two digits a byte |
| SignedQuery.DecimalReadsBack | src/auth/signer.cpp:39 | the decimal text of every number reads back as that number, consists of digits and has no leading zero |
| SignedQuery.SignParameters | src/auth/signer.cpp:35-55 | exactly timestamp and signature are set, other parameters kept; the timestamp reads back as the given milliseconds, and the signature decodes to the digest of the stamped map's query string in iteration order |
| SignedQuery.SignedStringIsSent | src/rest/client.cpp:151-163 | for any two iteration orders, the sent string less its signature is the signed string iff the sending order less the signature key is the signing order |
| SignedQuery.ReorderedRequestIsNotWhatWasSigned | src/rest/client.cpp:76-81 | any other order of the same parameters is a legal sending order whose string is not the signed one |
| SignedQuery.OneParameterHasTwoOrders | src/auth/signer.cpp:43-53 | a request with one parameter of its own already has two such orders |
| Urls.ParseOfPrint | src/rest/detail/http_client.cpp:48-71 | both parsers recover host and explicit port of any printed URL, whatever its path contains, the REST parser also the scheme; a missing port is 443 for https and for WebSockets, else 80 |
| Urls.EveryUrlIsPrinted | src/rest/detail/http_client.cpp:48-71 | every accepted URL is a printed one, so the previous row covers all of them |
| Urls.RejectedIffNoSeparator | src/ws/detail/websocket_client.cpp:42-63 | a string is rejected iff "://" does not occur in it |
| Urls.ParsersAgree | src/ws/detail/websocket_client.cpp:42-63 | on every string the parsers accept the same URLs with the same host, and the same port iff it is explicit or the scheme is https |
| Clock.SplitIsExact | src/core/platform/clock.hpp:26-30 | for all ticks, negative ones included, the split computation equals the wide product divided once, truncated toward zero |
| Clock.ConversionTruncates | src/core/platform/clock.hpp:26-30 | the result is ticks times 10^9 over the frequency, truncated toward zero, for negative ticks too |
| Clock.ConversionIsExact | src/core/platform/clock.hpp:15-30 | no intermediate value overflows whenever the result fits, for exactly the frequencies up to 9223372037 |
| Clock.ConversionIsMonotone | src/core/platform/clock.hpp:26-30 | later ticks never convert to earlier times |

## Left out

- The WebSocket handlers, the request coroutines and the keep-alive thread are transitions on values rather than methods on objects, since each may be interrupted between its steps; aliasing between their objects is not modelled.
- TCP, TLS, DNS, HTTP and WebSocket framing, Beast and Asio: connects, reads, writes and pings succeed or fail as the environment chooses.
- HMAC-SHA256 is an arbitrary function of key and text.
- The seq_cst order of unrelated atomics and tearing: a stale load returns some earlier value of the counter, and slot accesses are shown to be ordered instead of being given weak-memory values.
- Moved-from sources of the rvalue push overload: both overloads are one method.
- The first connect of the WebSocket client and its error path; the WebSocket model starts when it has succeeded.
- A second subscribe or start on a running stream, concurrent stops, moves and destruction order of live objects, and disconnect called from a callback.
- Floating-point rounding in the jitter: the random product is any real number between 3/4 and 5/4 of the delay.
- A manual renewal's refresh: `RefreshedBeforeExpiry` counts the create and the automatic renewals only.
- How long blocking calls inside a WebSocket handler take: `DisconnectReturns` counts steps and takes each to end.
- Overflow of the doubled reconnect delay beyond 2^62 seconds.
- JSON parsing, REST endpoint wrappers, rate-limit counters and enum tables, which copy fields and look up tables; logging and thread affinity, which have no result.
- The result of `res_keep_alive` is a given boolean.
