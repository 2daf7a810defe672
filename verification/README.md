# Verification of the trading bot's state machines

A Dafny project that models the stateful parts of the bot and proves what holds over their whole runs:

- the trading machine of one symbol (`mstrategy.py`),
- the HTTPS request pipeline (`https_client.cpp`),
- the web server's client map, its base 64 codec and the write queue of a session (`wss_server.cpp`),
- the event dispatcher, and the journal pager with the row cursor under it (`application.cpp`, `database.h`),
- the dialog that composes a manual order (`order.cpp`).

`dafny verify dfyconfig.toml` checks all of it.

## Structure

Each component has a value-level machine (`Step`, `Run`) and a class in the source's own form. The class has the
source's fields and methods, with the source's branches and loops. `Model()` reads the machine's state off the fields,
and every method ensures that the new state and what was sent are those of the machine's `Step`. Theorems about whole
runs are lemmas about `Run`, so they hold of the objects.

| files | component |
|---|---|
| `Money`, `TradingModel` | rounding; the trading machine with one phase instead of a state name and four flags |
| `TradingHistory`, `TradingReports`, `TradingOrders`, `TradingIds`, `TradingPrices`, `TradingParams` | its run theorems |
| `TradingMachine` | class `SymbolData`; `Valid()` states how flags, state name, timer and the aliased order agree |
| `HttpsModel`, `HttpsProofs`, `HttpsRuns`, `HttpsTransport`, `HttpsClient` | the request pipeline |
| `WebClients`, `WebAccess`, `WebServer`, `Base64`, `Base64Text`, `WriteQueue` | the web server |
| `Dispatcher`, `JournalPager` | the application |
| `OrderDialog`, `OrderDialogRuns`, `OrderDialogWords`, `OrderDialogEngine` | the order dialog |

`SymbolData.Valid()` is the coherence of the trading machine: it runs exactly while it waits for a price or an order, it
watches prices exactly while it waits for one, an order is tracked exactly in the three order states, the timer is
armed only while a confirmation or a cancel is awaited and always while a confirmation is, and the placing state is
never at rest. The source relies on this and does not say so. Every event method keeps it.

## Properties that do not hold of the code

The code was modelled as it is. Where an expected property fails, a lemma gives the failing case and the exact
condition under which the property holds.

- A stop is not always honoured. A data change sets `change_mode`; a stop that comes before the old order's cancel
  does not clear it, so the cancel restarts the watch. A timeout leaves the flag set as well.
  (`TradingHistory.StopHonouredExactly`)
- Client order ids can collide: only a filled sale advances the counter, so after a timeout, a cancel, or a filled
  purchase and a restart on purchases the next order of the same side gets the same id. For the symbol USDT, and for USDT_to_USDT and so on, the ids of both
  sides collide as well. (`TradingIds.IdSharedExactly`, `TradingOrders.IdsDistinctExactly`)
- `round_at_step` discards its own correction and always rounds to six decimals, upwards as well.
  (`Money.NeverGrowsExactly`, `Money.RoundingRaises`)
- A CANCELED report of any other order ends the tracked one while its cancel is awaited.
  (`TradingHistory.CancelsNameTheirsExactly`, `TradingHistory.ForeignCancelEnds`)
- A price of zero hides a crossing: it cuts the prices in two, and only a part that shows the crossing by itself is
  noticed. (`TradingPrices.DetectedOnStretchExactly`, `TradingPrices.ZeroPriceHidesCrossing`)
- The expiry sweep drops fresh requests if the clock went back, because the age is an unsigned difference.
  (`HttpsRuns.CleanupDropsYoungExactly`)
- The disconnect of a session without an id may remove another session's entry, which then can never log in.
  (`WebClients.DisconnectSparesOthersExactly`, `WebClients.LockedOutForever`)
- One send that finds a session's queue empty and its socket closed stops the session's writes for good. This does no
  harm as long as a session that is closed stays closed and nothing is sent before it opens; the model lets the socket
  be open again later. (`WriteQueue.StallsExactly`, `WriteQueue.ClosedSendStalls`)
- Base 64 drops trailing NULs. (`Base64.RoundTripExactly`, `Base64.TrailingNulIsLost`)
- The explanation of the order types leaves a flag set that makes the dialog ignore the side that is typed later, or
  the name in the next dialog. (`OrderDialogRuns.CompleteExactly`, `OrderDialogRuns.NextNameLost`)
- A STOP_LOSS_LIMIT order never gets past its price question, so it has no outcome from its side question on. TAKE_PROFIT_LIMIT is missing from the table of type
  names, so it is read as an unknown type. (`OrderDialogRuns.OutcomeReachableExactly`)

## Assumptions

- Trading: amounts are exact reals. A FILLED report carries the commission asset, the commission and a price that is
  not zero. Trade data end at the first missing or unreadable field. A report in the first state is caught by the
  caller and changes nothing. The timer is one armed flag: stopping it always works, and it fires only while armed.
- HTTPS: a failed operation and the reconnect it posts are one step, and so is the handshake that ends a connect. The
  send time read from the clock is not zero. Erasing an element in the sweep also advances. The clock's going forward
  is stated where it is needed and nowhere else.
- Web server: a session disconnects once and sends nothing afterwards. The multimap keeps equal keys in order of
  insertion and finds the first of them. The choice between Telegram and web control does not change while running.
- Base 64: a single left-over letter, for which the decoder reads past its input, is an error.
- Dispatcher: the strand runs one dispatcher at a time; push, post, loop test and removal are atomic steps.
- Order dialog: `Input.number` is the value of a text that parses as a number. The list of symbols does not change
  during a run. The order's fields start with whatever the record held.

## Model

| member | source | states |
|---|---|---|
| TradingMachine.SymbolData.constructor | mstrategy.py:196-263 | a new machine is coherent and equals the model's initial state |
| TradingMachine.SymbolData.SetState | mstrategy.py:43-50 | the new state is set and the old one remembered, except in the end state, which stays |
| TradingMachine.SymbolData.FsmRun | mstrategy.py:56-62 | runs the handler of the current state; whatever state it is called in, the nested runs end and leave a coherent machine that has done what the model's step for that state does |
| TradingMachine.SymbolData.FsmWaitPrice | mstrategy.py:580-586 | a crossing of the active trigger, and nothing else, places the order of the current side |
| TradingMachine.SymbolData.FsmInPrice | mstrategy.py:588-614 | the order gets its id from symbol, side and counter, is sent with the committed price and the current quantity, becomes the order waited for, and arms the timer |
| TradingMachine.SymbolData.FsmWaitOrderCompl | mstrategy.py:616-634 | only a NEW report for the order confirms it; a report without status or id changes nothing |
| TradingMachine.SymbolData.FsmWaitOrderFill | mstrategy.py:636-674 | only a FILLED report for the order ends it; then the other side is next, the counter advances after a sale, and the commission lowers both quantities alike |
| TradingMachine.SymbolData.CorrectQuantity | mstrategy.py:655-671 | both orders end with the same quantity, reduced by the commission in the symbol's coin unless it was paid in BNB |
| TradingMachine.SymbolData.FsmWaitOrderDel | mstrategy.py:676-695 | a cancel ends the order; afterwards the machine watches again if data were being changed and otherwise halts |
| TradingMachine.SymbolData.FsmResume | mstrategy.py:697-709 | the machine rests, watches nothing, and the next step is a purchase |
| TradingMachine.SymbolData.OnTradeData | mstrategy.py:308-347 | coherence is kept and only the staged data change, field by field up to the first missing one |
| TradingMachine.SymbolData.TakeMessage | mstrategy.py:312-318 | the staged data after a message with missing or unreadable fields |
| TradingMachine.SymbolData.OnTradeRun | mstrategy.py:349-440 | start, stop and change, in every state, keep coherence and do what the model's step does |
| TradingMachine.SymbolData.OnPrice | mstrategy.py:442-448 | a price keeps coherence, is remembered with its predecessor, and places an order only on a watched crossing |
| TradingMachine.SymbolData.OnOrderReport | mstrategy.py:450-454 | any report in any state keeps coherence and does what the model's step does; in the first and the resting state that is nothing |
| TradingMachine.SymbolData.OnOrderCompleteTimeout | mstrategy.py:456-468 | the timeout gives up the tracked order and halts the machine |
| TradingHistory.RunFollows | mstrategy.py:408-440 | over every run an order is sent only while none is tracked, every delete request names the tracked order, and every fill, cancel and timeout ends it |
| TradingHistory.CancelsNameTheirsExactly | mstrategy.py:676-678 | over every run, each order that ended as cancelled was itself reported so exactly when no CANCELED report of another order arrived while a cancel was awaited |
| TradingHistory.ForeignCancelEnds | mstrategy.py:678-681 | such a report ends the tracked order |
| TradingHistory.OrderConservation | mstrategy.py:588-697 | over every run the orders placed are, id by id and in order, those that were filled, cancelled or timed out, followed by the one still tracked |
| TradingHistory.QuietStaysQuiet | mstrategy.py:450-468 | a resting machine, and one that cancels for a stop, place nothing before the next start, whatever arrives |
| TradingHistory.StopHonouredExactly | mstrategy.py:426-440 | after a stop no continuation without a start places an order, exactly when no data change still waits for the cancel of a tracked order |
| TradingHistory.ChangeModeResumes | mstrategy.py:689-692 | the continuation on which a stop is not honoured: the cancel arrives, then two prices around the trigger |
| TradingHistory.TimeoutLeavesChangeMode | mstrategy.py:408-411 | the flag that defeats a later stop survives a timeout and the next start |
| TradingReports.ConfirmedExactly | mstrategy.py:619-631 | an order that awaits confirmation is confirmed exactly by a report with its id and the status NEW; any other report changes nothing |
| TradingReports.FilledExactly | mstrategy.py:638-674 | an order that awaits its fill is filled exactly by a report with its id and the status FILLED, and by the commission in it; any other report changes nothing |
| TradingReports.CancelledExactly | mstrategy.py:678-695 | an order that awaits its cancel ends exactly with a CANCELED report, in a new watch with the flag cleared if data are changed and at rest on the purchase step otherwise |
| TradingReports.FilledWasReported | mstrategy.py:616-674 | over every run, each fill was caused by a FILLED report of the order, whose commission it carries, and before that a NEW report of the same order had confirmed it |
| TradingReports.TimeoutExactly | mstrategy.py:456-468 | the timer gives up the order exactly from its placement to its confirmation, also if a cancel is asked for in between |
| TradingReports.CommandExactly | mstrategy.py:349-440 | a start or stop with an order tracked sends one delete request, of that order, awaits its cancel and leaves the timer as it was; without one a start watches and a stop rests |
| TradingReports.StartTakesStaged | mstrategy.py:356-366 | a start or change takes the chosen side and the staged data, in every state |
| TradingReports.DeletesExactly | mstrategy.py:408-435 | over every run, delete requests are as many as the commands that found an order tracked |
| TradingReports.CancellingWasAsked | mstrategy.py:408-435 | over every run, a machine that awaits a cancel has sent a delete request of the order since it placed its last one |
| TradingReports.QuantityFollowsReports | mstrategy.py:655-671 | over every run without a start, the quantity is what the commissions in the accepted FILLED reports leave of it, up to half a unit per charged fill |
| TradingIds.IdSharedExactly | mstrategy.py:599-653 | over every run of every machine, with stops, changes, timeouts and restarts, two placed orders share a client id exactly when no sale was filled between them and they are of the same side, or of any side for the symbols below |
| TradingIds.RestartReusesId | mstrategy.py:456-468 | an order that times out unconfirmed, followed by a restart on a trigger that the stored prices enclose, is followed by an order under the same id |
| TradingIds.RestartAfterPurchaseReusesId | mstrategy.py:649-653 | a filled purchase, followed by a stop and a restart on purchases on a trigger that the stored prices enclose, is followed by an order under its id |
| TradingIds.FillsAreOfTheirOrdersSide | mstrategy.py:649-653 | over every run, a fill is of the side on which the filled order was placed |
| TradingIds.IdText | mstrategy.py:599-604 | over every run, an id names the direction of its side, the symbol and, in plain decimal digits, the number of sales filled before it |
| TradingOrders.IdsDistinctExactly | mstrategy.py:599-604 | the ids of different side or counter all differ exactly when the symbol is none of USDT, USDT_to_USDT, USDT_to_USDT_to_USDT, ... |
| TradingOrders.MirroredExactly | mstrategy.py:599-604 | the two id patterns coincide for exactly these symbols |
| TradingOrders.StretchCounts | mstrategy.py:649-653 | in any stretch without start, stop or timeout, orders go out in the order of 2 * counter + step, which every fill raises by exactly one |
| TradingOrders.FreshStartAlternates | mstrategy.py:363-381 | after a fresh start the sides alternate from the chosen one, and all ids of the stretch differ |
| TradingPrices.PlacesExactlyOnCrossing | mstrategy.py:442-448 | prices alone place one order if two neighbours enclose the active trigger, and none otherwise |
| TradingPrices.IntermediateValue | mstrategy.py:514-519 | non-zero prices enclose the level between two neighbours exactly when they are not all strictly on one side of it |
| TradingPrices.CrossingDetectedExactly | mstrategy.py:580-614 | after non-zero prices an order has been placed exactly when the stored and the new prices are not all strictly on one side of the trigger |
| TradingPrices.CrossesOnStretchExactly | mstrategy.py:514-519 | for all prices, two neighbours enclose the level exactly when some stretch of two or more prices without a zero is not strictly on one side of it |
| TradingPrices.DetectedOnStretchExactly | mstrategy.py:442-448 | for all prices, an order has been placed exactly when the stored and the new prices have such a stretch for the active trigger |
| TradingPrices.DetectedAmongEventsExactly | mstrategy.py:442-454 | with trade data and order reports between the prices, a watching machine places an order exactly when two neighbouring prices enclose the trigger, or the stored pair does and a report, which tests it again, comes before the next price |
| TradingPrices.ZeroPriceHidesCrossing | mstrategy.py:515-516 | any crossing that a price would complete is missed if a zero comes before that price |
| TradingParams.CommittedSinceLastStart | mstrategy.py:390-402 | after any run, the live triggers and prices are the data staged at the last start or change, all orders since are priced by them, and the quantity drifts from theirs by the commissions and half a unit per charged fill |
| TradingParams.StagedFields | mstrategy.py:312-318 | each field of a message is staged as that field exactly if it and all fields before it are there |
| TradingParams.TradesByMessage | mstrategy.py:308-366 | from a complete message through the start that takes it to the next start, every order of a side has the price that the message gives for that side |
| TradingParams.PlacedOnOwnTrigger | mstrategy.py:580-607 | an order is placed only when the last two prices enclose the trigger of its own side, with the price of that side |
| TradingParams.LiveKeptWithoutStart | mstrategy.py:308-327 | staging new data never touches the live ones |
| TradingParams.QuantityDrift | mstrategy.py:655-671 | after n charged fills the quantity is the plain difference up to n * 0.5e-6 |
| TradingParams.OrdersCarryQuantity | mstrategy.py:606-607 | every order is placed with that quantity |
| TradingParams.GridQuantityNeverGrows | mstrategy.py:655-671 | a quantity with at most six decimals stays one and never increases |
| Money.RoundAtStep | mstrategy.py:490-497 | the result is the value rounded to six decimals, ties to even, whatever the step |
| Money.Round6Nearest | mstrategy.py:490-497 | the result has six decimals and no such number is nearer to the value |
| Money.RoundsDownExactly | mstrategy.py:494-496 | when the rounding really goes down, which the discarded correction suggests it always does |
| Money.RoundingRaises | mstrategy.py:490-497 | an amount that the rounding raises, so that a commission of nothing makes it larger |
| Money.NeverGrowsExactly | mstrategy.py:661-668 | no commission can raise a quantity exactly when the digits behind the quantity's sixth decimal are below one half, or one half above an even count |
| HttpsClient.Client.Request | https_client.cpp:353-367 | the request is queued last; it is written at once exactly when the client is connected and nothing else is queued, also from inside the response callback |
| HttpsClient.Client.DoWrite | https_client.cpp:369-381 | the front request, and only it, goes on the wire with its send time; nothing else may be outstanding |
| HttpsClient.Client.OnHandshake | https_client.cpp:196-217 | a connected client starts on what is queued; a failed handshake leads to a reconnect |
| HttpsClient.Client.OnWrite | https_client.cpp:383-416 | a written request is read for; a failed one is due again |
| HttpsClient.Client.OnRead | https_client.cpp:418-439 | the callback gets the reply with the request it was read for, and after it, whatever it submits and when, the next request is written |
| HttpsClient.Client.OnReconnect | https_client.cpp:456-470 | the client is not ready and a connect is under way |
| HttpsClient.Client.CleanupRequests | https_client.cpp:477-509 | the invariant is kept and the queue is what the sweep leaves |
| HttpsClient.Client.EraseExpired | https_client.cpp:486-495 | the erasing loop computes the sweep |
| HttpsProofs.EveryReachableState | https_client.cpp:353-439 | in every reachable state each submitted request is answered, expired or queued exactly once and unaltered, answers and queue together stand in submission order, and at most the front request is on the wire, always when the client is connected and requests wait |
| HttpsProofs.StepKeeps | https_client.cpp:383-439 | every single completion, request and sweep keeps both invariants |
| HttpsProofs.CompletedKeeps | https_client.cpp:429-438 | the handler is called with the request on the wire and its reply, and requests made inside the handler break nothing |
| HttpsProofs.SweepKeepsWire | https_client.cpp:486-495 | the sweep never moves or removes the request whose operation is outstanding |
| HttpsTransport.FailureReconnects | https_client.cpp:387-427 | a failed handshake, write or read leads to a reconnect with every request due again, none lost and none answered |
| HttpsTransport.ReadsAfterWriting | https_client.cpp:383-416 | over every run, the client reads for a request only after a write of it has succeeded, with no failure in between |
| HttpsTransport.AnsweredAfterWriting | https_client.cpp:383-439 | over every run, each answer was read with its reply after a successful write of its request, with no failure in between |
| HttpsTransport.RecoversAndAnswersAll | https_client.cpp:196-439 | from any state in which it reconnects, one good handshake and successful operations answer the whole queue in order |
| HttpsTransport.IdleClientWrites | https_client.cpp:353-381 | a connected client with nothing queued writes a request at once, with its send time |
| HttpsTransport.SubmittedAreTheRequests | https_client.cpp:353-356 | over every run, what was submitted are the payloads of the run's own requests in order, and each queued request has the payload and push time of its own |
| HttpsRuns.SweepIsFilterExactly | https_client.cpp:486-495 | the early exit gives the plain filter, for every later time and interval, exactly when waiting requests stand in the order of their push times |
| HttpsRuns.CleanupIsFilter | https_client.cpp:477-509 | with a clock that never goes back, in every reachable state the sweep keeps exactly the request on the wire and the unexpired ones, in order |
| HttpsRuns.CleanupDropsYoungExactly | https_client.cpp:486-495 | in every reachable state, whatever the clock did, the sweep drops a request that is not old enough exactly when a waiting request was pushed after the sweep's reading of the clock and it and all waiting requests before it look old; no interval makes it do so exactly when no waiting request was pushed after that reading |
| HttpsRuns.SweptExactly | https_client.cpp:486-495 | a request is swept exactly when it waits and it and all waiting requests before it look old |
| HttpsRuns.FutureRequestIsSwept | https_client.cpp:491-492 | for which times and intervals a lone waiting request is dropped, a request from the future included |
| HttpsRuns.RetriesLoseNothing | https_client.cpp:456-470 | any number of connects, handshakes, writes and failures neither loses nor reorders nor answers a request |
| HttpsRuns.SuccessAnswersAll | https_client.cpp:418-439 | if all operations succeed the whole queue is answered in order |
| WebServer.WssServer.OnConnect | wss_server.cpp:387-391 | a new session stands in the map without an id; the map's invariant is kept |
| WebServer.WssServer.OnDisconnect | wss_server.cpp:393-410 | the first entry under the session's id is removed; the map's invariant is kept |
| WebServer.WssServer.OnReceive | wss_server.cpp:412-520 | every message keeps the map's invariant and causes exactly the events, replies and escaping exceptions of the model's step |
| WebServer.WssServer.Authenticate | wss_server.cpp:440-511 | who gets which id for which password, with and without Telegram in control |
| WebServer.WssServer.ChangeClientKey | wss_server.cpp:370-385 | the session's entry, found by a search, is moved under the new key, or just removed for a negative key; without an entry nothing happens |
| WebServer.WssServer.CommandDecoder | wss_server.cpp:522-624 | which commands get through for which id |
| WebClients.RunKeeps | wss_server.cpp:370-410 | in every reachable state each key is its session's id, no session is registered twice, at most one under key 0, user ids grow strictly and are never reused, connected sessions with an id are registered, and no session has id 0 while Telegram controls |
| WebClients.PrivilegeExactly | wss_server.cpp:526-587 | a trade-run, order-delete or data-setting event is caused exactly by such a command from the session registered under key 0 in web control |
| WebAccess.GrantedExactly | wss_server.cpp:440-511 | a log-in grants an id exactly to a waiting session with the user's password, or the administrator's while Telegram controls or nobody has control; the id is 0 exactly for the administrator in web control, and the reply says which id was granted |
| WebAccess.IdsWereEarned | wss_server.cpp:440-511 | over every run, a session with an id has sent one of the two passwords, and the one with id 0 the administrator's, in web control |
| WebAccess.ControllerSentAdminPassword | wss_server.cpp:461-481 | over every run, the session under key 0 has sent the administrator's password |
| WebAccess.RepliesExactly | wss_server.cpp:412-624 | for every other message, which events, errors and exceptions it causes for which id |
| WebClients.DisconnectSparesOthersExactly | wss_server.cpp:393-410 | a disconnect leaves all other sessions registered exactly when its session has an id, or no session without an id is registered, or it is the first of these |
| WebClients.DisconnectRemovesOwnExactly | wss_server.cpp:393-410 | a disconnect leaves its session unregistered exactly when that session has an id, was not registered before, or is the first without an id |
| WebClients.LockedOut | wss_server.cpp:447-459 | no message of a connected session whose entry was removed changes anything |
| WebClients.LockedOutForever | wss_server.cpp:393-405 | such a session stays unregistered and keeps its id over every run, whatever the others do |
| WebClients.HangUpLocksOutAnother | wss_server.cpp:393-405 | two sessions connect and the second hangs up: the first is locked out |
| Base64.DecodeEncode | wss_server.cpp:749-762 | decoding an encoding gives the bytes back without trailing NULs |
| Base64.RoundTripExactly | wss_server.cpp:749-762 | the round trip is exact for exactly the byte strings that do not end in NUL |
| Base64.TrailingNulIsLost | wss_server.cpp:749-754 | a single NUL comes back as nothing |
| Base64.EncodeInjective | wss_server.cpp:756-762 | different byte strings have different encodings, trailing NULs included |
| Base64.EncodedLength | wss_server.cpp:761 | the encoding has four characters for every started group of three bytes |
| Base64.PaddingFormula | wss_server.cpp:761 | the recursive padding count is the source's formula |
| Base64.LettersThenPadding | wss_server.cpp:759-761 | letters of the alphabet come first and only the padding is '=' |
| Base64.SextetsAreTheBits | wss_server.cpp:759-760 | the six-bit values are the bits of the zero-filled message, six at a time, as section 4 of RFC 4648 has it |
| Base64Text.EncodingSpelledOut | wss_server.cpp:756-762 | each letter of an encoding stands in the alphabet of RFC 4648, section 4, at the place that its six bits of the filled message spell |
| Base64Text.DecodingSpelledOut | wss_server.cpp:749-754 | any accepted text decodes to the bits of its letters' places in the alphabet, cut to whole bytes, without trailing NULs |
| Base64Text.DecodeFailsExactly | wss_server.cpp:749-754 | a text is refused exactly for a character that is neither in the alphabet nor padding, or for a letter left over alone |
| WriteQueue.SessionWriter.AsyncWrite | wss_server.cpp:179-184 | the front buffer, and no other, is handed to a write while none is outstanding |
| WriteQueue.SessionWriter.OnSend | wss_server.cpp:167-185 | the send is queued last and its write is issued at once exactly when the socket is open and nothing else is queued, which never makes two writes overlap |
| WriteQueue.SessionWriter.OnWrite | wss_server.cpp:187-214 | a completed write, failed or not, leaves the queue, and the write of the next buffer is issued, with none outstanding before |
| WriteQueue.RunInOrder | wss_server.cpp:167-214 | over every run at most one write is outstanding, it was handed the front of the queue, and the buffers of the completed writes followed by the queue are all sends in order, write errors included |
| WriteQueue.OpenRunsWrite | wss_server.cpp:173-184 | while the socket is open at every send, data are queued exactly while one write, of their front, is outstanding |
| WriteQueue.SentAreTheSends | wss_server.cpp:167-171 | over every run, what counts as sent are the buffers of the run's own sends in order |
| WriteQueue.CompletionsWriteAll | wss_server.cpp:187-214 | as many completions as buffers wait, successful or not, write everything that was sent |
| WriteQueue.StallsExactly | wss_server.cpp:173-177 | queued data are without an outstanding write exactly when some send found the queue empty and the socket closed |
| WriteQueue.StallIsForever | wss_server.cpp:173-177 | after one such send the session never issues a write again |
| WriteQueue.ClosedSendStalls | wss_server.cpp:173-177 | a first send to a closed socket is such a send, whatever follows |
| Dispatcher.Application.AddEvent | application.cpp:252-259 | the event is queued last and a dispatcher run is posted for it |
| Dispatcher.Application.Dispatch | application.cpp:261-275 | the loop ends with an empty queue and every event that was ever added, also during handling, handled in order |
| Dispatcher.RunKeeps | application.cpp:252-275 | under every interleaving of pushes, posts, dispatcher starts, loop tests and removals the handled and queued events are all added events in order, and waiting events have a dispatcher running, posted or about to be posted |
| Dispatcher.AddedAreThePushes | application.cpp:252-256 | over every run, what counts as added are the run's own pushes in order |
| Dispatcher.OneRunForEachPush | application.cpp:252-259 | over every run, each push accounts for exactly one dispatcher run that is due, posted or started |
| Dispatcher.WaitingEventsGetHandled | application.cpp:252-275 | no wake-up is lost: from every reachable state with waiting events a dispatcher run handles everything |
| JournalPager.Database.Exec | database.h:41-60 | after a query all its rows lie ahead of the cursor, none behind |
| JournalPager.Database.Next | database.h:93-100 | rows visited followed by rows ahead stay the same list; the cursor moves on by one row while there is one |
| JournalPager.Database.GetValue | database.h:62-91 | the column of the current row read as a value; the type's own default if the column is missing, the caller's if there is no row or the text cannot be read; the flag tells which |
| JournalPager.Database.GetText | application.cpp:685-687 | the text of the column, empty if it or the row is missing |
| JournalPager.SendRows | application.cpp:674-704 | the packing loop sends exactly the greedy split of the header and the rows, and visits every row once |
| JournalPager.RowTextSpelledOut | application.cpp:685-687 | date, symbol and message of a row stand in its text in this order, with a blank after each of the first two and a line end after the last |
| JournalPager.OnStatReady | application.cpp:667-704 | a failed query sends only the failure note |
| JournalPager.MessagesJoin | application.cpp:674-704 | the messages read one after the other are the header and all rows in order, or the header and the note |
| JournalPager.GreedyFlattens | application.cpp:689-700 | no text is split, dropped, doubled or moved by the packing |
| JournalPager.MessagesFitExactly | application.cpp:692-703 | no message is over 4096 bytes exactly when neither the header nor a row is, and without rows exactly when header and note together are not |
| JournalPager.FewestMessages | application.cpp:680-704 | no split of the header and the rows, or of the header with its note, into messages of legal size has fewer messages |
| OrderDialogEngine.TOrder.constructor | order.cpp:3-15 | a new dialog is idle and shows nothing |
| OrderDialogEngine.TOrder.InputDouble | order.cpp:73-92 | a number goes into the order and the view; anything else changes nothing |
| OrderDialogEngine.TOrder.TakeName | order.cpp:113-146 | together with the entry of the engine that may follow, this leaves the dialog and the events that the model gives for the whole input: a set repeat flag discards the name and is cleared, and a single symbol is filled in without asking |
| OrderDialogEngine.TOrder.TakeSymbol | order.cpp:148-152 | together with the entry of the engine that may follow, this leaves the dialog and the events that the model gives for the whole input: the first word makes the pair, and the type is asked for |
| OrderDialogEngine.TOrder.TakeType | order.cpp:168-187 | together with the entry of the engine that may follow, this leaves the dialog and the events that the model gives for the whole input: help is given on request, and a type that is not in the table is taken as unknown |
| OrderDialogEngine.TOrder.TakeSide | order.cpp:189-205 | together with the entry of the engine that may follow, this leaves the dialog and the events that the model gives for the whole input: a set repeat flag discards the side and is cleared |
| OrderDialogEngine.TOrder.TakeQuantity | order.cpp:207-238 | together with the entry of the engine that may follow, this leaves the dialog and the events that the model gives for the whole input: text that is no number changes nothing, and the order type decides the next question |
| OrderDialogEngine.TOrder.TakePrice | order.cpp:240-321 | together with the entry of the engine that may follow, this leaves the dialog and the events that the model gives for the whole input: a repeated question takes no price, text that is no number changes nothing, and the order type decides the next question |
| OrderDialogEngine.TOrder.Finish | order.cpp:324-374 | together with the entry of the engine that may follow, this leaves the dialog and the events that the model gives for the whole input: only $e sends the order, only $c cancels it, and any reply ends the listening |
| OrderDialogEngine.TOrder.TakeDeletion | order.cpp:376-416 | together with the entry of the engine that may follow, this leaves the dialog and the events that the model gives for the whole input: with one symbol the deletion is sent without asking for the pair |
| OrderDialogEngine.TOrder.SendDeletion | order.cpp:418-426 | together with the entry of the engine that may follow, this leaves the dialog and the events that the model gives for the whole input: one deletion with the name and the pair is sent |
| OrderDialogEngine.TOrder.TakeList | order.cpp:428-458 | together with the entry of the engine that may follow, this leaves the dialog and the events that the model gives for the whole input: one request is sent, for the symbol as it was typed, and the dialog is idle |
| OrderDialogEngine.TOrder.Engine | order.cpp:94-466 | for every state, input and non-empty symbol list the mutual recursion with help ends, in the state and with the events of the non-recursive model |
| OrderDialogEngine.TOrder.Help | order.cpp:468-498 | the previous question is put again with the repeat flag set; elsewhere nothing happens |
| OrderDialogEngine.TOrder.StartOrder | order.cpp:31-36 | the dialog asks for the name, or stops listening when there is no symbol; the view is emptied, but neither the order nor the repeat flag is reset |
| OrderDialogEngine.TOrder.Del | order.cpp:17-22 | the dialog asks which order to delete, or stops listening when there is no symbol |
| OrderDialogEngine.TOrder.ListOrders | order.cpp:24-29 | the dialog asks for the symbol, or with a single one requests its list at once |
| OrderDialogRuns.RunAnswered | order.cpp:94-350 | at every point of every dialog: which fields have been answered, when the repeat flag is set, and which order types each question allows |
| OrderDialogRuns.SentOrder | order.cpp:352-358 | a sent order was answered in this dialog in every field its type needs, except the name if the flag was left set before and the side if the explanation of the types was asked for; it is the earlier order with exactly these answers put in, and the view showed exactly them |
| OrderDialogWords.OrderMeansAnswers | order.cpp:113-334 | at every point of every dialog each field has the meaning of its answer, by the literal words for sides, types and validities, or its earlier value |
| OrderDialogWords.SentMeansAnswers | bnc_data_types.h:29-68 | a sent order is a purchase exactly for the word BUY, has the type and validity named, an unknown one for any other word, and the pair, name and numbers answered |
| OrderDialogRuns.CompleteExactly | order.cpp:168-205 | a sent order is complete exactly when the flag was clear at the start and no explanation of the types was asked for |
| OrderDialogRuns.SideLost | order.cpp:189-198 | in every dialog the side can be typed and the order still go out with the earlier side |
| OrderDialogRuns.FlagLeftExactly | order.cpp:494-497 | when a dialog that is broken off leaves the flag set for the next one |
| OrderDialogRuns.NextNameLost | order.cpp:113-123 | after such a dialog the next order goes out under the earlier name |
| OrderDialogRuns.RunFaithful | order.cpp:60-92 | at every point of every dialog the order is the earlier one with the answers put in, and the view shows the answers and no more |
| OrderDialogRuns.AnswersWereTyped | order.cpp:113-334 | every answer was typed at its own question, except the only symbol of a list |
| OrderDialogRuns.HelpAtType | order.cpp:168-173 | asking for the explanation of the types only sets the flag |
| OrderDialogRuns.HelpChangesNothing | order.cpp:324-329 | asking for the explanation of the validity, in any dialog, leaves state, order, view and flag unchanged |
| OrderDialogRuns.OneOutcome | order.cpp:352-374 | a dialog has at most one outcome while it listens; the first reply to the last question ends it, and a reply other than $e and $c ends it without one |
| OrderDialogRuns.OutcomeReachableExactly | order.cpp:240-321 | at every point of every dialog some further replies lead to an outcome exactly when there is a symbol and the order is not a STOP_LOSS_LIMIT order between its side and its price question |
| OrderDialogWords.FirstWord | order.cpp:66-71 | the first word of a text ends before its first blank |
| OrderDialogWords.OnlyThisDeletion | order.cpp:376-426 | over every deletion dialog with several symbols, what is sent is the deletion of the name and the pair typed in it, again for every further text that reaches it, and nothing else |
| OrderDialogWords.DeletionSent | order.cpp:376-426 | the dialog listens until the deletion is sent and not after |
| OrderDialogWords.DeletionOfOnlyPair | order.cpp:411-426 | with a single symbol the deletion of the name typed and that pair is sent |
| OrderDialogWords.ListSent | order.cpp:428-458 | one list is requested, for the symbol typed, and the dialog is over |

## Left out

- TradingMachine.SymbolData: `orders` is two constant objects instead of a list, and the state machine's fields are the
  object's own; the aliasing of the awaited order with one of the two is modelled.
- TradingMachine.SymbolData.OnOrderCompleteTimeout: requires the timer to be armed; a handler that fires after the timer was stopped is not modelled.
- HttpsClient.Client: the tickets, the outstanding operation and the logs are not fields of the source; TLS, proxies, HTTP text and the connect phases before the handshake are not modelled.
- `reset_requests` of the HTTPS client and its caller, the Telegram long poll: they can pop the front during an operation.
- WebServer.WssServer.OnReceive: what becomes of the server after an exception has left the callback is not modelled. Messages arrive decoded; JSON, the texts of replies, the broadcast of prices with its readiness flag, and the payloads of queries are not modelled.
- WriteQueue.SessionWriter.OnWrite: the close that follows a failed write is not modelled, only its effect on the queue, which is none.
- JournalPager.OnStatReady: the SQL text is not modelled; query rows, header and notes are parameters, and texts are byte strings.
- Dispatcher.Application.Dispatch: the events that arrive while it runs are a finite list, because with an endless stream of them the loop never ends; `Dispatcher.RunKeeps` covers every interleaving. An event without a handler is just removed; what handlers do besides adding events is not modelled.
- OrderDialogEngine.TOrder.Engine: split into one method per group of questions; messages, keyboards and the log are not modelled. `ListOrders` needs a symbol, because the source reads the first element of an empty list otherwise.
- OrderDialogRuns.SentOrder: speaks of the order when it is released; the handler of the posted event reads it a moment later.
- Liveness of a requested cancel: a fill that races it leaves the machine waiting, so there is nothing to prove.
- Floating-point error: amounts are reals, and only the rounding to six decimals is modelled.
- `strategy.py`, `strategy_sceleton.py` and the `distrib` copy are older or duplicate variants of the trading machine.
- `statistic.cpp`, `wss_client.cpp`, `timer.h` and `bnc_data_types.*` beyond the tables the dialog uses would only add easy members.
- Configuration, logging, journal and alert texts, the Python and C++ glue, SQL execution, sockets and HMAC signing.
