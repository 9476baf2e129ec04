# Quote aggregation: model and proofs

This Dafny project models the quote aggregation service of the repository and
proves properties of it. Quotes (trades, order-book increments, snapshots) of
each symbol are collected into consecutive time windows; a timed pass over all
symbols detaches windows that are over and publishes one message for each; a
websocket server caches messages, replays the cache to a client that joins and
then serves it live; a rate limiter guards calls to the exchange.

`dafny verify dfyconfig.toml` checks everything.

## How the model is laid out

- `Basics.dfy`: equations on sequences and on whole periods.
- `Quotes.dfy`: the three kinds of quotes and their string ids.
- `GoList.dfy`: Go's linked list with element identity, as far as the pending
  lists use it: a removed element has no successor.
- `Windows.dfy`: a symbol's chain of windows as values: `Route`/`Put` (the three
  `put_*`), `Detach`, `TimeItr`, and runs of puts and ticks with their history.
- `WindowRuns.dfy`, `WindowContents.dfy`, `WindowEmission.dfy`,
  `WindowDrain.dfy`, `WindowClock.dfy`: what every run keeps.
- `Aggregation.dfy`: `PeriodNode` and `SymbolDef` as objects updated in place,
  proved equal to the value-level chain; the drain loop over the linked list as
  it stands, and with the successor fetched first.
- `Collector.dfy`: the timed pass as a state machine in which symbols are visited
  in any order and quotes arrive between any two steps. `Lockstep.dfy` and
  `Publication.dfy`: its runs. `Controller.dfy`: one round of the loop.
- `Handoff.dfy`: replay and live delivery to one client as interleaved atomic
  steps; the load of the flag and the append that depends on it are separate.
  `HandoffProofs.dfy`, `HandoffResults.dfy`: every interleaving.
  `WsServer.dfy`: cache, registry and delivery to all clients.
- `Frame.dfy`: the 26-byte header. `RateLimit.dfy`: the rate limiter.

## Where the code does not do what is asked of it

- The loops that drain pending lists remove an element and then ask it for its
  successor, so each ends at its first match, although the comment above them
  asks for all matches (`cmd/QuoteAggrService/aggregation.go:346`). `WalksAgree`,
  `DrainLeavesNone` and `StaleExactly` say exactly when that makes no difference;
  `LeftBehind` gives, for every quote, a run in which it does, and `StaleForever`
  and `LeftForGood` say that what is left behind waits for good. Fetching the
  successor first is not enough of a repair: pending lists are not deduplicated
  (`ParksTwice`), and the loop would then emit repeated quotes (`AbsorbDistinct`,
  `LeftBehind`).
- Snapshots that fall to the front window are looked up among trade ids.
  `SnapshotDedupExact` says of whole runs exactly when no window repeats a
  snapshot; `SnapshotsUnbounded` that one window can repeat it any number of times.
- A message that is parked after the flush of parked messages is never sent.
  `DeliveredExactly` says which messages are lost and which are sent twice,
  `LateForever` and `LateIsLost` that no continuation makes up for it, and
  `LossUnbounded` that their number has no bound. Storing the flag while the lock
  is held still loses one (`OneStillLost`); loading it under the lock as well
  loses none (`Repairs`, `RepairedOrder`).
- The period label of a message comes from a clock reading, not from its window.
  `LabelExact` says exactly when the two agree; `LabelGoesWrong` gives, for all
  settings, runs in which they do not.
- A call asks for room for one order but is charged all of its orders:
  `OrdersExactly` says when the minute's orders stay within their limit all the
  same, `Overshoot` by how much one call can exceed it. Counters are cleared on
  every turn of the clock loop within the second that resets them:
  `WeightExactly` says when the minute's weight stays within its limit over a
  stretch of time and bounds it in general, `ManyInOneSecond` that the bound is
  reached. The per-second order limit is never consulted (`OrderSecondIgnored`).
- A client that asks for the last 0 seconds, which the scripts describe as asking
  for the latest messages, is served through the replay like any other, with what
  that can lose (`ZeroSecondsReplay`). `ReplayExactly` says which clients are
  served without it.

## Assumptions

- PERIOD is positive (it is read from the configuration). Integers are unbounded
  except in the header and in the computation of a client's start, where they
  have their widths.
- The clock of each pass is arbitrary: it may stand still, jump or run backward.
  Only `LabelExact` and `LabelRight` assume a window not before the origin, and
  `LabelRight` that the second of the two readings is not the earlier one.
- The cache bound is `DataCacheTime * 60 / 3`, a natural number that also bounds
  the output channel; the channel model is that of a buffered channel, so a bound
  of 0 is not covered.
- Where timestamps must rise (`Account`, `DeliveredExactly`, `LateIsLost`), that is a
  hypothesis; `PublishedRising` proves that the controller provides it.
- Ids are the numbers whose base-10 texts the code uses as keys (`TextInjective`).

## Model

| member | source | states |
|---|---|---|
| `Quotes.TextInjective` | core/quote.go:51-106 | two ids have the same base-10 text exactly when they are the same number, so a map keyed by text is one keyed by number |
| `Quotes.KeyByFields` | core/quote.go:50-92 | two quotes have the same key text exactly when their trade ids agree, or their times for quotes that are no trades |
| `GoList.RemoveUnlinks` | cmd/QuoteAggrService/aggregation.go:347-355 | removing an element keeps the order of the others and leaves the removed one without a successor |
| `WindowRuns.Tiling` | cmd/QuoteAggrService/aggregation.go:303-344 | in every run the k-th window ever created, emitted or linked, is [born + k * PERIOD, born + (k + 1) * PERIOD), one or two are linked, whatever the clock does; nothing happens before the first tick |
| `WindowRuns.LinkedAfter` | cmd/QuoteAggrService/aggregation.go:303-344 | the number of linked windows is that of the ticks so far, and two from the second tick on |
| `WindowRuns.StoredIsEmitted` | cmd/QuoteAggrService/aggregation.go:303-377 | a quote stored in the front or back window is in the next or next-but-one window returned, whatever comes in between |
| `WindowContents.MapAndIndexAgree` | cmd/QuoteAggrService/aggregation.go:145-212 | in every linked window the map's keys are the ids in the index; trades and increments have no repeated id there nor in emitted windows, although the drain bypasses the map |
| `WindowContents.IncrementTimesDistinct` | cmd/QuoteAggrService/aggregation.go:217-300 | no two increments of an emitted window share a time |
| `WindowContents.TradeIdsDistinct` | cmd/QuoteAggrService/aggregation.go:135-215 | no two trades of an emitted window share a trade id |
| `WindowContents.Placement` | cmd/QuoteAggrService/aggregation.go:333-377 | emitted windows hold quotes of their own and the previous period only, the back window of its own only |
| `WindowContents.Conservation` | cmd/QuoteAggrService/aggregation.go:53-377 | accepted quotes are, with multiplicity, those emitted, linked, pending or thrown away by a drain as duplicates |
| `WindowContents.DiscardedHasTwin` | cmd/QuoteAggrService/aggregation.go:346-375 | a quote thrown away by a drain has a quote of the same id in the emitted window it was drained for |
| `WindowEmission.OncePerWindow` | cmd/QuoteAggrService/aggregation.go:135-377 | a trade or increment of given id and time is in an emitted window at most once, and any quote only in the window of its period or the next |
| `WindowEmission.AtMostTwice` | cmd/QuoteAggrService/aggregation.go:135-377 | over any run a trade or increment is emitted at most twice, once in its own window and once in the next, however often it is delivered |
| `WindowEmission.TwiceIsReached` | cmd/QuoteAggrService/aggregation.go:184-201 | the bound of two is reached, for every quote and every setting |
| `WindowEmission.RepeatsRefused` | cmd/QuoteAggrService/aggregation.go:53-300 | of two quotes of one kind that one window would take, the second is refused after the first exactly if it has the same trade id, or the same time if no trade; the front window of two takes snapshots again |
| `WindowEmission.RouteToOne` | cmd/QuoteAggrService/aggregation.go:53-160 | while one window is linked a quote of any kind is stored if and only if its time is in [born, born + PERIOD) and the index has none of the same trade id or time, in every reachable state |
| `WindowEmission.RouteByPeriod` | cmd/QuoteAggrService/aggregation.go:161-214 | which window takes a quote, by the period its time falls into and the trade ids or times in the indexes, in every reachable state with two windows |
| `WindowEmission.ParkedTimes` | cmd/QuoteAggrService/aggregation.go:188-212 | a quote enters a pending list exactly if two windows are linked and its time is from the end of the back window to ten seconds later |
| `WindowEmission.SnapshotPutExact` | cmd/QuoteAggrService/aggregation.go:111-119 | after a put of a snapshot to the front window its index is free of repeated ids if and only if it was before and the id is new there or equals a trade id of the window |
| `WindowEmission.SnapshotDedupExact` | cmd/QuoteAggrService/aggregation.go:53-133 | over whole runs no window, emitted or linked, repeats a snapshot id if and only if no put brought the front window a snapshot that its snapshot map had already |
| `WindowEmission.SnapshotsUnbounded` | cmd/QuoteAggrService/aggregation.go:111-119 | for every snapshot and every n there is a run that emits it n times in one window |
| `WindowDrain.DrainLeavesNone` | cmd/QuoteAggrService/aggregation.go:346-355 | a drain leaves no quote of its window behind if and only if it fetches the successor first or at most one was due |
| `WindowDrain.WalksAgree` | cmd/QuoteAggrService/aggregation.go:347-355 | the loop as it stands takes the first quote due and no other; it does what the save-next loop does if and only if at most one is due |
| `WindowDrain.AbsorbDistinct` | cmd/QuoteAggrService/aggregation.go:349-353 | the drained index stays free of repeats if and only if the moved quotes new to the map differ in id |
| `WindowDrain.StaleStep` | cmd/QuoteAggrService/aggregation.go:333-377 | one event leaves a quote behind exactly if it is a detach for which two or more were due |
| `WindowDrain.StaleForever` | cmd/QuoteAggrService/aggregation.go:346-375 | a pending quote older than the front window stays pending for good in every continuation |
| `WindowDrain.StaleExactly` | cmd/QuoteAggrService/aggregation.go:346-375 | over whole runs no quote is left behind if and only if no detach was overfull; the save-next loop leaves none |
| `WindowDrain.ParksTwice` | cmd/QuoteAggrService/aggregation.go:211-212 | a quote that waits, delivered again, waits twice |
| `WindowDrain.LeftBehind` | cmd/QuoteAggrService/aggregation.go:346-375 | for all settings, every quote and every n there is a run that parks n copies and closes their window: the loop as it stands emits one and leaves the others behind, the save-next loop emits all n |
| `WindowDrain.LeftForGood` | cmd/QuoteAggrService/aggregation.go:346-375 | the copies left behind still wait after every continuation |
| `WindowClock.TickAdvances` | cmd/QuoteAggrService/aggregation.go:325-330 | a tick returns the front window exactly when the clock is past its end by more than the detach time |
| `WindowClock.CatchUp` | cmd/QuoteAggrService/aggregation.go:307-344 | with the clock standing, n ticks return min(n, overdue) windows, the overdue number being the ceiling of the delay over the period |
| `WindowClock.NeverEarly` | cmd/QuoteAggrService/aggregation.go:325-330 | every emitted window was returned by a tick that read a clock past its end plus the detach time |
| `WindowClock.StoredComesOut` | cmd/QuoteAggrService/aggregation.go:303-344 | a stored quote is emitted by one (front) or two (back) ticks once the clock is late enough |
| `Aggregation.DrainLoop` | cmd/QuoteAggrService/aggregation.go:347-355 | the loop over the linked list as it stands removes and moves the first match only |
| `Aggregation.DrainLoopSaveNext` | cmd/QuoteAggrService/aggregation.go:346-355 | the loop the comment asks for removes and moves all matches, in order |
| `Aggregation.PeriodNode.constructor` | cmd/QuoteAggrService/aggregation.go:513-529 | a new window is empty and one period long |
| `Aggregation.SymbolDef.constructor` | cmd/QuoteAggrService/aggregation.go:43-51 | a new symbol has no window and nothing pending |
| `Aggregation.SymbolDef.PutTrade` | cmd/QuoteAggrService/aggregation.go:135-215 | the objects change as the value-level put says, and nothing else does |
| `Aggregation.SymbolDef.PutInc` | cmd/QuoteAggrService/aggregation.go:217-300 | the same for increments |
| `Aggregation.SymbolDef.PutSnapshot` | cmd/QuoteAggrService/aggregation.go:53-133 | the same for snapshots, with the trade ids consulted by the front branch |
| `Aggregation.SymbolDef.DetachFront` | cmd/QuoteAggrService/aggregation.go:333-377 | the front node is unlinked, a new back node linked, and the three lists drained, as the value-level detach says |
| `Aggregation.SymbolDef.TimeIterate` | cmd/QuoteAggrService/aggregation.go:303-331 | the chain is created, extended or moved on as the value-level tick says; a returned node is no longer linked |
| `Lockstep.InLockstep` | cmd/QuoteAggrService/controller.go:429-471 | in every interleaving all symbols have windows of equal bounds between passes, and so do the visited and the unvisited ones during a pass |
| `Lockstep.VisitsCommute` | cmd/QuoteAggrService/controller.go:450-470 | visiting the same symbols in two different orders, from any state inside a pass, gives the same chains, the same timestamp and the same infos up to their order |
| `Lockstep.MessagesInOrder` | cmd/QuoteAggrService/controller.go:449-502 | a message holds data of one window, each symbol once, windows strictly in order; without skipping of empty quotes, all symbols and no gap |
| `Lockstep.AgreeOrDisjoint` | cmd/QuoteAggrService/controller.go:431-448 | two aggregators of one period, started at any times, publish windows that are identical or disjoint |
| `Lockstep.BirthAround` | cmd/QuoteAggrService/controller.go:434-436 | the born time is whole periods from the beginning of 2024 and is the beginning of the period of the clock reading; before the origin, the end of it |
| `Lockstep.EmptyNeverSent` | cmd/QuoteAggrService/controller.go:455-483 | with skipping of empty quotes every info of every published message has some quote |
| `Lockstep.QuietPass` | cmd/QuoteAggrService/controller.go:450-483 | with skipping, a pass that closes no window with a quote in it publishes nothing |
| `Lockstep.LabelExact` | cmd/QuoteAggrService/controller.go:434-489 | the label is the window's period if and only if the reading in seconds lies in the period right after the window |
| `Lockstep.LabelRight` | cmd/QuoteAggrService/controller.go:431-489 | with a detach time of 999 ms or more and a timely pass the label is right in spite of truncation |
| `Lockstep.LabelGoesWrong` | cmd/QuoteAggrService/controller.go:434-489 | for all settings, a run whose message is labelled with a period that is not its window's, if the pass comes two periods after the window's start or later |
| `Publication.Projection` | cmd/QuoteAggrService/controller.go:449-502 | in every sequence of actions each symbol goes through its own run of the quotes delivered to it and the visits paid to it, and its published windows are exactly those that run emitted, in order, less skipped empty ones |
| `Publication.PublishedExactly` | cmd/QuoteAggrService/controller.go:449-502 | all windows a symbol emitted are published; with skipping of empty quotes, exactly those with some quote in them |
| `Publication.FirstWindow` | cmd/QuoteAggrService/controller.go:431-448 | the first window of every symbol begins at the born time of the first pass, so it contains the second of that pass |
| `Publication.DeliveredIsAccounted` | cmd/QuoteAggrService/controller.go:449-502 | the quotes delivered to a symbol are, with multiplicity, those published, in the message being built, linked, pending, refused on arrival or thrown away by its drains |
| `Publication.PublishedAtMostTwice` | cmd/QuoteAggrService/controller.go:449-502 | over all published messages a trade or increment appears at most twice for its symbol |
| `Publication.PublishedRising` | cmd/QuoteAggrService/controller.go:455-500 | published timestamps strictly rise |
| `Controller.Controller.constructor` | cmd/QuoteAggrService/controller.go:237-244 | the rebuilt symbol map is the machine's initial state |
| `Controller.Controller.FindBirth` | cmd/QuoteAggrService/controller.go:434-448 | the born time is that of some symbol with windows, and the aligned clock only if there is none |
| `Controller.Controller.VisitSymbol` | cmd/QuoteAggrService/controller.go:450-470 | stepping one symbol and adding its share to the message is the machine's visit step |
| `Controller.Controller.Collect` | cmd/QuoteAggrService/controller.go:425-502 | one round is a run of the state machine in some order of the symbols, publishing what that run publishes |
| `HandoffResults.HandoffOrder` | cmd/QuoteAggrService/wsserver.go:165-217 | in every interleaving what enters the channel is copied ++ flushed ++ forwarded, what is read live is flushed ++ late ++ forwarded, and the late messages are what is parked |
| `HandoffResults.LateForever` | cmd/QuoteAggrService/wsserver.go:189-217 | after the flush every continuation keeps the late messages parked, and only forwarded messages are added to the channel |
| `HandoffResults.LateIsLost` | cmd/QuoteAggrService/wsserver.go:189-217 | a late message that was not replayed is in the channel in no continuation with rising timestamps |
| `HandoffResults.Repairs` | cmd/QuoteAggrService/wsserver.go:189-217 | with the flag stored under the lock at most one message is late; with it also loaded under the lock none |
| `HandoffResults.RepairedOrder` | cmd/QuoteAggrService/wsserver.go:186-217 | with both repairs the channel gets the copied messages and then all live ones |
| `HandoffResults.DirectOrder` | cmd/QuoteAggrService/wsserver.go:167-211 | a client with a start of zero gets the live stream as it is |
| `HandoffResults.CacheIsLast` | cmd/QuoteAggrService/wsserver.go:135-139 | the cache is always the last messages enqueued, up to the bound |
| `HandoffResults.ReplayNeverBlocks` | cmd/QuoteAggrService/wsserver.go:100-188 | while copied messages are left to push there is room in the channel |
| `HandoffResults.ChannelBounds` | cmd/QuoteAggrService/wsserver.go:98-104 | neither channel ever holds more than its capacity |
| `HandoffResults.StandstillExactly` | cmd/QuoteAggrService/wsserver.go:165-217 | a registered client can do nothing more exactly when all is done, or when its main loop, the only reader of the full output channel, waits for room in it, itself or through the lock of the flush |
| `HandoffResults.StandstillReached` | cmd/QuoteAggrService/wsserver.go:129-211 | for all capacities a run leads to such a standstill with work left, after which nothing can be enqueued while the client is registered |
| `HandoffResults.SinceIsSuffix` | cmd/QuoteAggrService/wsserver.go:177-183 | with rising timestamps the scan yields exactly the suffix of messages not before the start |
| `HandoffResults.Account` | cmd/QuoteAggrService/wsserver.go:165-217 | once the flush is over what entered the channel is three given stretches of the history of all messages, and the late ones are the stretch left out |
| `HandoffResults.DeliveredExactly` | cmd/QuoteAggrService/wsserver.go:129-217 | how often each message was delivered, exactly: which ones twice and which ones not at all |
| `HandoffResults.LossUnbounded` | cmd/QuoteAggrService/wsserver.go:189-217 | for every n there is an interleaving with n messages, none of which reaches the client in any continuation |
| `HandoffResults.OneStillLost` | cmd/QuoteAggrService/wsserver.go:189-217 | storing the flag under the lock alone still admits a message that reaches the client in no continuation |
| `HandoffResults.ReplayExactly` | cmd/QuoteAggrService/wsserver.go:440 | a client is served without replay if and only if the seconds it asks for, in milliseconds, are the server's clock, up to a multiple of 2^64 |
| `HandoffResults.ReplayReaches` | cmd/QuoteAggrService/wsserver.go:176-183 | the messages replayed are exactly the cached ones that are not older than the seconds the client asked for |
| `HandoffResults.QuietReplay` | cmd/QuoteAggrService/wsserver.go:129-196 | for every history there is a run that gives the client exactly the cached messages not before its start and finishes the replay |
| `HandoffResults.ZeroSecondsReplay` | cmd/QuoteAggrService/wsserver.go:167-217 | a client that asks for the last 0 seconds is replayed to, from the present on, and can lose any number of messages |
| `WsServer.WsClient.Delivery` | cmd/QuoteAggrService/wsserver.go:150-153 | the message is appended to the client's live channel |
| `WsServer.WsServer.DeliverAll` | cmd/QuoteAggrService/wsserver.go:141-145 | every registered client gets the message once, in any order |
| `WsServer.WsServer.Enqueue` | cmd/QuoteAggrService/wsserver.go:129-147 | the cache takes the message and drops the oldest if over its bound; the clients that came last for their user and have not closed get the message once |
| `WsServer.WsServer.Register` | cmd/QuoteAggrService/wsserver.go:444-450 | a newcomer is served from now on, the client of the same user no longer is, all others are as before; the registry stays what the visits make it |
| `WsServer.WsServer.OnClose` | cmd/QuoteAggrService/wsserver.go:370-379 | the client that closes is no longer served, all others are as before; the registry stays what the visits make it |
| `WsServer.CopySince` | cmd/QuoteAggrService/wsserver.go:176-183 | the scan loop collects the cached messages not before the start |
| `WsServer.ServesOpen` | cmd/QuoteAggrService/wsserver.go:444-450 | a registration keeps the registry to exactly the clients that came last for their user and have not closed |
| `WsServer.ServesClose` | cmd/QuoteAggrService/wsserver.go:370-379 | so does a close, and a late close of a client that was kicked off changes nothing |
| `Frame.SendHdr` | cmd/QuoteAggrService/wsserver.go:240-282 | the header is the five fields one after the other |
| `Frame.Send` | cmd/QuoteAggrService/wsserver.go:284-307 | the frame is 26 bytes longer than the payload, decodes to the message's fields, and carries the payload after them |
| `Frame.EncodedByte` | cmd/QuoteAggrService/wsserver.go:232-282 | each byte of a field told by itself: network byte order, two's complement for negative values |
| `Frame.FrameRoundTrip` | cmd/QuoteAggrService/scripts/ws_client_with_hdr.py:67-71 | for all field values and payloads decoding returns them; bytes 18 to 26 are the post timestamp |
| `Frame.HeaderBijective` | cmd/QuoteAggrService/wsserver.go:232-282 | every 26 bytes are the header of exactly one set of fields |
| `RateLimit.RateLimitManager.Consume` | cmd/QuoteAggrService/ratelimit.go:131-174 | counters and verdict after a call; charges before a refusal stay |
| `RateLimit.RateLimitManager.TurnClock` | cmd/QuoteAggrService/ratelimit.go:77-122 | counters after a turn of the clock loop, also when it panics half way |
| `RateLimit.TurnExactly` | cmd/QuoteAggrService/ratelimit.go:82-118 | a turn ends unless there is an hourly limit or a zero interval; it clears exactly the counters whose interval begins, and notes the beginning of each interval |
| `RateLimit.AcceptedExactly` | cmd/QuoteAggrService/ratelimit.go:131-174 | when a call is accepted, in terms of the counters before it |
| `RateLimit.VerdictExactly` | cmd/QuoteAggrService/ratelimit.go:131-174 | why a call is refused, in terms of the counters before it |
| `RateLimit.OrdersCharged` | cmd/QuoteAggrService/ratelimit.go:154-161 | every order counter after a call, for each verdict |
| `RateLimit.WeightCharged` | cmd/QuoteAggrService/ratelimit.go:136-171 | every weight counter after a call, for each verdict: charges before a refusal stay, and orders are charged on the per-second weight counter |
| `RateLimit.CountersExactly` | cmd/QuoteAggrService/ratelimit.go:77-174 | over any run every counter is exactly what calls have been charged on it since its last reset |
| `RateLimit.RateAccounting` | cmd/QuoteAggrService/ratelimit.go:77-174 | over any run the minute's weight counter is accepted weight plus weight of calls refused later and within its limit; order-charged counters overshoot by less than one call's orders; the per-second order counter is never charged |
| `RateLimit.WeightExactly` | cmd/QuoteAggrService/ratelimit.go:89-174 | over any stretch from a zero counter, the minute's weight counter is all weight charged if and only if no turn reset a counter that was not zero, and then accepted weight is within the limit; in general it is within the limit times one more than such turns |
| `RateLimit.OrdersExactly` | cmd/QuoteAggrService/ratelimit.go:155-161 | the minute's orders stay within their limit all the time if and only if no call that passed the checks had more orders than there was room for |
| `RateLimit.Overshoot` | cmd/QuoteAggrService/ratelimit.go:155-161 | with room for one order a call with any number of orders is accepted |
| `RateLimit.OrderSecondIgnored` | cmd/QuoteAggrService/ratelimit.go:163-169 | the per-second order counter has no influence on the verdict |
| `RateLimit.ManyInOneSecond` | cmd/QuoteAggrService/ratelimit.go:89-115 | the whole minute's weight can be had n + 1 times within the second that resets, for every n |

## Left out

- Controller.Controller.VisitSymbol: steps a symbol as a value, see the next line.
- Controller.Controller.Collect: keeps the symbols as values, so it does not show
  that the objects of different symbols are separate; the objects' own updates are
  those of `SymbolDef`.
- WsServer.WsServer.DeliverAll: has room in every live channel, as `Enqueue`.
- WsServer.WsServer.Enqueue: models the call once every live channel has room; the
  blocking is in the state machine of `Handoff`, for one client at a time.
- A message that fails to encode is not enqueued by the server; encoding being
  left out, every message is.
- Setting up the rate limiter's counters from the exchange's limits: a run starts
  with all counts at zero.
- Other clients of the server: they share only the cache with a client, and
  delivery to them only delays it.
- Locks of the server: an enqueue that waits for a client's channel holds none in
  the model, so what waits for it in turn is not covered. Progress is not claimed;
  `StandstillExactly` says where it ends.
- The order on the wire after the output channel, since every send has its own
  thread; closing of connections and heartbeats.
- Protobuf, gob and zlib encoding, and the conversion of decimal strings: a
  published message is a record of its timestamp, label and windows.
- Kafka, ZMQ, Redis, exchange and websocket I/O, logging, monitoring alarms and
  configuration.
- User lookup, address filtering and reload of the user file.
- The bloom filters, which are allocated and never used.
- The receiving service, whose rate limiter is the same code.
