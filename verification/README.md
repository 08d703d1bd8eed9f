# A verified model of the trading bot's stateful core

The bot keeps thirteen order books from a market-data feed, publishes the top of each book to other threads, sends
orders through a pre-trade risk engine, reads the exchange's responses, and trades a fund (UNDY) against its ten
members (the dorms). This project models those parts and proves what holds of them on every input, every run and every
interleaving.

Each stateful part is written twice. A module of values and functions says what every call does, and carries the
theorems about runs. A class with the source's own fields and loops does the same work in place; its methods are proved
to do exactly what the functions say, so the theorems hold of it too.

| part | functions and theorems | in place |
|---|---|---|
| order book | `Books`, `BookEffects` | `OrderBooks.OrderBook` |
| published top of book | `Slots`, `TopOfBookRace` | `SymbolManagers.SymbolSlot`, `SymbolManagers.SymbolManager` |
| feed routing, snapshots, catch-up | `Feeds`, `SnapshotRestore`, `CatchUp` | `Listeners.Listener` |
| risk engine | `Risk`, `RiskAdmission`, `RiskCaps`, `RiskEdges`, `RiskRates`, `RiskShutdown`, `RiskProfit` | `RiskManagers` |
| Base64 | `Base64` | `Base64.Base64Encode` |
| exchange responses | `Responses` | `OeClients.OeClient` |
| accounting | `Accounting`, `ProfitCas` | `SymbolManagers.SymbolManager` |
| fund arbitrage | `ArbSnapshots`, `Arb`, `ArbOrders`, `ArbStreams` | `EtfArbs.EtfArb` |

`Market` holds the message types and the 32-bit arithmetic, `Sums` the sums over maps, `Sequences` two facts about
sequences.

## The main results

- **The book's indices.** From a book whose two price-level indices equal the recomputation from its orders, a message
  keeps them equal if and only if it fits: no 32-bit level sum wraps, and a modify creates no empty level
  (`Books.ApplyAgreesIff`, `Books.RunAgrees`). The published values are then what a scan of the orders finds
  (`Slots.PublishedTopIsNaive`). What a run leaves of an order depends on that order's own messages alone
  (`BookEffects.FateIsOwn`), and the quantity at rest is conserved (`BookEffects.QuantityConserved`).
- **Readers between stores.** Each published field is that field of the book before or after the call in progress
  (`TopOfBookRace.ReaderSeesBeforeOrAfter`). Price and quantity together may belong to neither book: at which instants
  is `TopOfBookRace.TornIff`, for which new orders `TopOfBookRace.NewChangesBothIff`, and that it happens
  `TopOfBookRace.TornReached`.
- **The feed.** Books, published values and routes survive a message if and only if it fits (`Feeds.DispatchOkIff`).
  A snapshot of a book's own orders restores it if and only if every order in it is one the book would accept
  (`SnapshotRestore.RestoresIff`), and so symbol by symbol for a packet of many (`SnapshotRestore.RestoreAll`). The
  catch-up protocol does exactly what its inputs schedule (`CatchUp.ListenerRefinesSchedule`), and at the switch it
  dispatches every book message held back, once and in order (`CatchUp.SwitchDispatchesHeld`).
- **The risk engine.** With honest fills, and no modify that asks a partly filled order for more than remains, both
  exposures stay capped on every run, so the position never passes the exposure limit (`RiskCaps.ExposureBounded`).
  The restriction on modifies is exact (`RiskEdges.ModifySoundIff`). For any limits, `max_position` is itself a bound
  exactly when it is no smaller than `max_exposure`, or one of the other limits is so tight that no two orders can be
  outstanding on one side (`RiskEdges.PositionLimitBindsIff`).
- **Admission.** Exactly which requests go out is stated on states and limits alone (`RiskAdmission.ForwardsIff`), and so
  is exactly when the engine stops (`RiskAdmission.ShutsDownIff`).
- **Rates, shutdown, profit.** `RiskRates.RateLimited`, `RiskRates.SeqNumLimited`, `RiskShutdown.ShutdownForGood`,
  `RiskShutdown.FrozenAfterCleanShutdown`, `RiskProfit.ProfitIsMarkedFills`.
- **Base64.** The accumulator loop computes the encoding of section 4 of RFC 4648 (`Base64.Base64Encode`), and a
  decoder accepts exactly the encodings (`Base64.DecodesIff`).
- **Responses.** What each wait answers is stated on the responses alone (`Responses.AnsweredIff`,
  `ArbStreams.FilledIff`). However reading is shared among calls, the result is one fold over a prefix of the stream
  (`Responses.CallsConsumePrefix`). Live means acknowledged and not closed exactly when no order is revived
  (`Responses.LiveIsAckedNotClosedIff`).
- **Accounting and arbitrage.** Realized profit equals cash plus basis on every long-only run
  (`Accounting.LongOnlyProfit`), and outside long-only only by coincidence (`Accounting.BalancesIff`). It is the cash
  made exactly when nothing of value is held (`Accounting.ProfitIsCashIff`). No update of the profit total is lost
  (`ProfitCas.NoLostUpdate`). A redemption trade whose orders all fill at their limits or better, with fills of other
  orders in between, ends flat but for those fills and brings in at least quantity times edge
  (`Arb.RedemptionProfits`); its eleven orders are field by field those it should send (`ArbOrders.RedemptionOrders`).
  Whether the trade notices that its fund order has filled depends on which of its two
  waits reads the fill (`ArbStreams.SeesFillIff`).

## Where the code and its surroundings disagree

The model follows the code.

- `test_symbol_manager.cpp:54-58` expects a total profit of -209 after buying 3 at 105 and selling 1 at 106. The code
  books +1, the profit on the part sold (`Accounting.ProfitIsNotCash`); when the two agree is
  `Accounting.ProfitIsCashIff`.
- `orderbook.cpp:75-106` checks neither the side, the quantity nor the price of a modify, although a new order is checked
  for all three. Two messages are enough to leave an order that its own snapshot does not restore
  (`SnapshotRestore.UnrestorableReached`), or an empty level at the published front (`Books.EmptyFrontReached`).
- `risk_manager.cpp:185-187` says that a modify to no more than the registered quantity is always safe. After a partial
  fill it is not: the registered quantity is not what is left (`RiskEdges.ModifySoundIff`).
- `symbol_manager.h:78` calls 9 a position limit. The sizes of `etf_arb.cpp:414-434` bound what is held after the sale,
  not the holding in between (`ArbSnapshots.CreationPeakIff`, `ArbSnapshots.RedemptionPeakIff`).
- `etf_arb.cpp:318-320` logs that the fund order did not fill when its wait returns false. The order may have filled: a
  fill that the wait for the acknowledgement reads is not there for the next wait (`oe_client.cpp:165-169`), and the
  attempt ends holding the fund (`ArbStreams.UnseenFillHolds`, `ArbStreams.ImmediateFillHolds`).

## Model

| member | source | states |
|---|---|---|
| OrderBooks.OrderBook.HandleNewOrder | orderbook.cpp:5-53 | a rejected order changes nothing; an accepted one is stored and joins its level; from agreeing indices the result agrees exactly when the level sum fits 32 bits |
| OrderBooks.OrderBook.HandleDeleteOrder | orderbook.cpp:55-73 | an unknown or foreign order changes nothing; otherwise order and share of its level go together, and agreement is kept |
| OrderBooks.OrderBook.HandleModifyOrder | orderbook.cpp:75-106 | the old share leaves, the new one joins, side and price included; agreement is kept exactly when the new level is neither empty nor wrapped |
| OrderBooks.OrderBook.HandleTrade | orderbook.cpp:108-141 | the new book is the one whose orders and levels `BookEffects.TradeEffect` and `BookEffects.TradeLevels` describe; agreement is always kept |
| OrderBooks.OrderBook.AddToPriceLevel | orderbook.cpp:159-165 | one level of one side grows, with 32-bit wrap-around |
| OrderBooks.OrderBook.RemoveFromPriceLevel | orderbook.cpp:167-201 | one level shrinks; a level taken to zero or short of the amount disappears |
| OrderBooks.OrderBook.Front | orderbook.cpp:143-157 | in an agreeing book the four values are the best live price of each side and its summed quantity, 0 when empty |
| Books.NoShortfall | orderbook.cpp:167-201 | in an agreeing book no order rests for more than its level holds, so the shortfall branches are dead |
| Books.AddMatchesIff | orderbook.cpp:159-165 | adding to a matching index matches the larger sums exactly when the level's new sum is positive and below 2^32 |
| Books.NewAgreesIff | orderbook.cpp:5-53 | a new order keeps both indices equal to the recomputation exactly when its level does not overflow |
| Books.DeleteAgrees | orderbook.cpp:55-73 | a delete always keeps them equal |
| Books.ModifyAgreesIff | orderbook.cpp:75-106 | a modify keeps them equal exactly when the new level's sum, without the old share, is positive and below 2^32 |
| Books.TradeAgrees | orderbook.cpp:108-141 | a trade of any quantity keeps them equal |
| BookEffects.NewEffect | orderbook.cpp:5-53 | a taken order rests exactly as it came, under its own symbol, and is the last message; any other changes nothing |
| BookEffects.DeleteEffect | orderbook.cpp:55-73 | exactly the named order of the book's symbol is gone, and this was the last message |
| BookEffects.ModifyEffect | orderbook.cpp:75-106 | exactly the named order takes the message's price, quantity and side, and keeps its symbol |
| BookEffects.TradeEffect | orderbook.cpp:108-141 | the order is gone exactly when at least its quantity was traded; otherwise it rests with the difference, all else unchanged; a trade of more than rests is not counted as the last message |
| BookEffects.TradeLevels | orderbook.cpp:131-138 | the order's level falls by the smaller of traded and resting quantity, every other level of either side stays |
| BookEffects.QuantityConserved | orderbook.cpp:5-141 | over any run, what rests is what rested, plus what entered, less what was traded, less what was taken back |
| BookEffects.FateIsOwn | orderbook.cpp:5-141 | what a run leaves of an order is a function of its own messages, whatever happens to the rest of the book |
| Books.AddLevelValue | orderbook.cpp:159-165 | a level after an addition: the sum, less 2^32 once it is reached; the others stay |
| Books.RemoveLevelValue | orderbook.cpp:167-201 | a level after a removal: the difference, or nothing if no more than that was there; the others stay |
| Books.ApplyAgreesIff | orderbook.cpp:5-141 | any message keeps the indices right if and only if it fits |
| Books.RunAgrees | orderbook.cpp:5-201 | after any run of fitting messages every level is the sum of the orders at its side and price, and exists exactly when that sum is positive |
| Books.AgreementDeterminesLevels | orderbook.h:17-50 | agreeing books with the same orders have the same levels: the indices hold no further information |
| Books.TopIsNaive | orderbook.cpp:143-157 | best prices and quantities of an agreeing book are what a scan of its orders finds |
| Books.CrossedIff | orderbook.cpp:203-206 | the crossed test holds exactly when some live buy is priced at or above some live sell |
| Books.EmptyFrontIff | orderbook.cpp:89-98 | a modify to quantity 0 puts an empty level at the front of its side exactly when its price beats every other live order there |
| Books.EmptyFrontReached | orderbook.cpp:89-98 | from an empty book, a buy and its modify to quantity 0, at any prices, publish a bid at which nothing rests |
| SymbolManagers.SymbolSlot.FlushTopOfBook | symbol_manager.h:155-160 | the four published values become the front of the book; nothing else changes |
| SymbolManagers.SymbolManager.constructor | symbol_manager.cpp:9-14 | thirteen separate empty slots and an empty account |
| SymbolManagers.SymbolManager.OnMessage | symbol_manager.cpp:42-64 | exactly one symbol's book takes the message and its values are published again; the other slots and the account stay |
| SymbolManagers.SymbolManager.ResetBook | symbol_manager.cpp:89-96 | one symbol's book and published values are emptied, all else stays |
| Slots.OnMessageOkIff | symbol_manager.cpp:42-64 | all thirteen slots stay right exactly when the message fits the book it goes to |
| Slots.ResetOk | symbol_manager.cpp:89-96 | a reset keeps all thirteen slots right |
| Slots.RunOk | symbol_manager.cpp:42-96 | so does any run of fitting messages and resets |
| Slots.PublishedTopIsNaive | symbol_manager.h:155-160 | after every completed call of any fitting run, the published values of every symbol are what a scan of its orders finds |
| TopOfBookRace.AfterCoherent | symbol_manager.cpp:42-64 | between any two stores, the fields already stored come from the new book and the rest from the old one |
| TopOfBookRace.ReaderSeesBeforeOrAfter | symbol_manager.h:155-160 | at any instant, each field a reader sees is that field of the book before or after the call in progress |
| TopOfBookRace.IdleCoherent | symbol_manager.h:155-160 | right tables, the empty one included, are a start for every run of stores |
| TopOfBookRace.TornIff | symbol_manager.h:155-160 | at any instant of any run, bid price and quantity together belong to neither book exactly between the two bid stores of a call that changes both; the same for the ask |
| TopOfBookRace.NewChangesBothIff | orderbook.cpp:41-42 | an accepted order changes both values of its side exactly when it betters the best price with a quantity other than the best one (on an empty ask side: when its price is not 0) |
| TopOfBookRace.TornReached | symbol_manager.cpp:42-46 | the first buy of a symbol, one store in: its price is published with quantity 0 |
| TopOfBookRace.StepsRefineCalls | symbol_manager.cpp:89-96 | taken apart into stores, any run ends in the table that whole calls produce |
| Listeners.Listener.Dispatch | listener.cpp:57-80 | a new order is routed and recorded by its symbol, the others by the recorded route; a delete forgets it; an unknown id changes nothing |
| Listeners.Listener.DropStaleRoutes | listener.cpp:164-168 | exactly the routes of one symbol are removed |
| Listeners.Listener.LoadOrders | listener.cpp:177-184 | at most the announced number of leading orders are dispatched, in order |
| Listeners.Listener.LoadBlock | listener.cpp:159-184 | one snapshot block: the symbol is cleared, then its orders are dispatched |
| Listeners.Listener.ReadBlock | listener.cpp:159-187 | the block takes effect and is noted; the walk moves on to what follows it |
| Listeners.Listener.WalkSnapshot | listener.cpp:153-190 | every block of the packet is read in turn, up to the first record that opens none |
| Listeners.Listener.Drain | listener.cpp:101-125 | the buffer is emptied, and its book messages have been dispatched one after the other, in order of arrival |
| Listeners.Listener.Receive | listener.cpp:133-222 | one arrival: buffered, fatal, or processed, as the protocol says |
| Listeners.Listener.ReceiveAll | listener.cpp:133-223 | the arrivals of one wait take effect in their order |
| Listeners.Listener.Silence | listener.cpp:95-130 | one silent wait: counted, and the switch to the live feed after more than a hundred |
| Listeners.Listener.HandlePoll | listener.cpp:87-131 | a failed wait stops the loop, a silent one is counted, arrivals are taken one by one; after a stop nothing changes |
| Listeners.Listener.RunListener | listener.cpp:84-223 | the loop over all waits has the state the protocol prescribes for the events they report |
| Feeds.BlockSize | listener.cpp:177-184 | a block loads leading orders only, no more than announced (the sum of the counts wraps), and stops early only at another kind of record |
| Feeds.FoldAppend | listener.cpp:133-222 | reading packets one after the other is reading their concatenation |
| Feeds.DispatchRoutedIff | listener.cpp:57-80 | every resting order stays in its own symbol's book and routed there exactly when a new order's id is not resting under another symbol |
| Feeds.NothingMisrouted | listener.cpp:63-80 | a message for a resting order reaches the one book that holds it, and that book acts on it |
| Feeds.BeginBlockRouted | listener.cpp:162-168 | clearing a symbol for its snapshot keeps all routes right |
| Feeds.DispatchOkIff | listener.cpp:57-80 | books, published values and routes all stay right if and only if the message fits |
| Feeds.DispatchRoutes | listener.cpp:57-80 | a new order's id is routed to its symbol, a delete's is forgotten, no other route moves |
| Feeds.ActAllOk | listener.cpp:152-215 | after any run of fitting messages and snapshot blocks they are all right |
| SnapshotRestore.LoadAll | listener.cpp:178-184 | loading listed orders in any order yields the admissible ones, right indices and published values, routes for all, and no change elsewhere |
| SnapshotRestore.Restore | listener.cpp:153-190 | replaying a book's own orders in any order restores the admissible ones; no other symbol changes |
| SnapshotRestore.RestoresIff | listener.cpp:162-184 | orders, levels and published values come back whole exactly when every resting order is admissible |
| SnapshotRestore.RestoredRoutes | listener.cpp:164-168 | afterwards exactly the listed ids are routed to the symbol; no stale route is left, no other is touched |
| SnapshotRestore.BlocksCons | listener.cpp:159-184 | a block is one reset and its orders, as many as announced or fewer, and then the reading goes on |
| SnapshotRestore.StrayEndsReading | listener.cpp:157 | a record that opens no block ends the reading; what follows is ignored |
| SnapshotRestore.RestoreAll | listener.cpp:153-190 | a packet of several symbols' own orders restores the admissible ones symbol by symbol, changes nothing else, and leaves everything right |
| SnapshotRestore.UnrestorableReached | orderbook.cpp:89-98 | an order and one modify of it, to a negative price or an unknown side, reach a book that its own snapshot does not restore |
| CatchUp.SwitchOf | listener.cpp:94-99 | the switch comes at the first moment of more than a hundred quiet waits after a snapshot, or never |
| CatchUp.RunTracks | listener.cpp:84-223 | the protocol's state is at every moment the one the input history determines |
| CatchUp.ListenerRefinesSchedule | listener.cpp:94-147 | the feed is what the replay's resets and deliveries, then one delivery for each live book message held back, then everything later make of an empty one; caught up exactly after the switch, with an empty buffer |
| CatchUp.MessagesAreBooks | listener.cpp:105-123 | the messages of held packets are those of exactly the book packets, each once, in their order |
| CatchUp.SwitchDispatchesHeld | listener.cpp:95-128 | at the switch the feed is the plain dispatch, on top of what the replay left, of the message of every book packet that arrived live, in order of arrival |
| CatchUp.SwitchAtHundredAndFirst | listener.cpp:96 | the switch comes at the hundred and first quiet wait |
| CatchUp.BufferBounded | listener.cpp:139 | never are more than 100001 packets held |
| CatchUp.ResetsIffSpeaks | listener.cpp:187-215 | the count of quiet waits restarts with a packet of live magic, or a snapshot that asks for anything |
| CatchUp.StopsIff | listener.cpp:89-92 | the listener stops exactly when a wait fails or a live packet comes before the switch to a buffer already over its limit |
| CatchUp.CaughtUpForGood | listener.cpp:94-148 | once caught up it stays so, and nothing is held back again |
| CatchUp.ListenerKeepsFeedOk | listener.cpp:84-223 | if the scheduled packets fit, every index, published value and route is right at the end of the run |
| RiskManagers.PositionTracker.OnFill | position_tracker.cpp:8-14 | the position moves by the signed quantity |
| RiskManagers.PositionTracker.WouldExceedLimit | position_tracker.cpp:18-25 | true exactly when the position after a full fill would pass the limit in absolute value |
| RiskManagers.ExposureTracker.OnOrderSent | exposure_tracker.cpp:13-20 | the order is pending and its side's total grows |
| RiskManagers.ExposureTracker.OnOrderRemoved | exposure_tracker.cpp:23-33 | a pending order and what remains of it leave together |
| RiskManagers.ExposureTracker.OnFill | exposure_tracker.cpp:37-53 | order and total shrink by the filled quantity; nothing remaining removes the order |
| RiskManagers.ExposureTracker.WouldExceedExposure | exposure_tracker.cpp:56-74 | true exactly when position on that side, outstanding quantity and the order together pass the limit |
| RiskManagers.PnlTracker.OnFill | pnl_tracker.cpp:11-19 | position and money of the side filled move by quantity and quantity times price |
| RiskManagers.PnlTracker.UpdateMarkPrice | pnl_tracker.cpp:22-24 | only the mark changes |
| RiskManagers.RiskManager.constructor | risk_manager.cpp:33-61 | starts flat, open-order free, with the first window opened now |
| RiskManagers.RiskManager.RefreshRateWindow | risk_manager.cpp:87-95 | the window reopens, with an empty count, exactly when a thousand whole milliseconds have passed |
| RiskManagers.RiskManager.CheckNewOrder | risk_manager.cpp:121-163 | the first limit broken, in the source's order, or Ok |
| RiskManagers.RiskManager.CheckModifyOrder | risk_manager.cpp:166-217 | the same for a modify: a same-side increase counts by its difference, a change of side in full |
| RiskManagers.RiskManager.CheckAddedQty | risk_manager.cpp:136-156 | the first of side total, exposure, position at its limit and position after the fill that the added quantity breaks, or Ok |
| RiskManagers.RiskManager.CheckRateLimits | risk_manager.cpp:106-115 | the first rate limit used up, or Ok |
| RiskManagers.RiskManager.AdmitNew | risk_manager.cpp:223-243 | the window is refreshed, then the first check broken decides, the rate limits last |
| RiskManagers.RiskManager.AdmitModify | risk_manager.cpp:278-294 | the same for a modify |
| RiskManagers.RiskManager.Forward | risk_manager.cpp:256-262 | one request goes out; both counters grow by one, whatever the answer, and the unacknowledged count is back where it was |
| RiskManagers.RiskManager.SendNewOrder | risk_manager.cpp:221-274 | the sender is asked exactly when all checks pass, once; the result is true exactly when the exchange accepted; consistent tracking, the caps and the position guard carry over |
| RiskManagers.RiskManager.ModifyOrder | risk_manager.cpp:276-327 | the same for a modify, the caps if it asks a partly filled order for no more than remains |
| RiskManagers.RiskManager.DeleteOrder | risk_manager.cpp:329-344 | always asks; forgets the order exactly when the exchange agrees; tracking and caps carry over |
| RiskManagers.RiskManager.CancelOne | risk_manager.cpp:356-365 | one more order is asked for, and is gone unless refused |
| RiskManagers.RiskManager.CancelAllOpenOrders | risk_manager.cpp:346-366 | asks once for each open order and keeps exactly the refused ones |
| RiskManagers.RiskManager.OnFill | risk_manager.cpp:370-397 | position, profit and exposure of the order's own side move; a closing fill forgets it; then the shutdown check; after an honest fill tracking, caps and position guard still hold |
| RiskManagers.RiskManager.OnGone | risk_manager.cpp:399-409 | a rejected or closed order leaves both maps and the totals; tracking and caps carry over |
| RiskManagers.RiskManager.UpdateMarkPrice | risk_manager.cpp:413-415 | only the mark changes |
| RiskManagers.RiskManager.OnSeqNumUpdate | risk_manager.cpp:417-422 | the count restarts exactly when the number differs from the last |
| RiskManagers.RiskManager.CheckAndShutdownIfNeeded | risk_manager.cpp:435-464 | on a breach, and only once, shuts down and cancels every open order |
| RiskAdmission.NewAdmittedIff | risk_manager.cpp:121-163 | a new order passes exactly while the engine runs, at a valid price, within the order limit, under a fresh id, and with room in side total, exposure and position |
| RiskAdmission.ModifyAdmittedIff | risk_manager.cpp:166-217 | a modify passes exactly in the same way for a known order, with room for what it adds |
| RiskAdmission.NewVerdict | risk_manager.cpp:121-163 | the verdict is that of the first rule broken, in the source's order |
| RiskAdmission.ModifyVerdict | risk_manager.cpp:166-217 | likewise for a modify |
| RiskAdmission.RatesVerdict | risk_manager.cpp:106-115 | likewise for the rates |
| RiskAdmission.ForwardsIff | risk_manager.cpp:221-243 | a request goes out exactly when it passes and window, sequence number and unacknowledged count still allow one; a second after it opened the window counts anew |
| RiskAdmission.NewRegistered | risk_manager.cpp:260-272 | an accepted order is registered as sent, a refused one leaves no trace; a shutdown in the same call keeps the refused deletions only |
| RiskAdmission.ModifyRegistered | risk_manager.cpp:311-325 | an accepted modify replaces side, quantity, price and remainder; the symbol stays |
| RiskAdmission.BlockedChangesNothing | risk_manager.cpp:225-243 | a request that does not go out changes nothing but the rate window |
| RiskAdmission.FillRegistered | risk_manager.cpp:370-397 | a fill of a known order moves position and money of its side, and the order stays known unless the exchange says closed; of an unknown one, nothing |
| RiskAdmission.FillShrinks | exposure_tracker.cpp:37-53 | remainder and total fall by the fill, and the order is no longer outstanding exactly when nothing remains |
| RiskAdmission.GoneForgets | risk_manager.cpp:399-409 | exactly this order is gone, with what remained of it |
| RiskAdmission.RefusedStays | risk_manager.cpp:329-366 | a refused deletion changes nothing; asking for all leaves exactly the refused ones |
| RiskAdmission.RunPrices | risk_manager.cpp:128-130 | on every run no request goes out and no order is registered below the smallest valid price |
| RiskAdmission.ShutsDownIff | risk_manager.cpp:435-464 | the engine is shut down after a call exactly when it was before, or the call looks and finds profit below the floor or position past the limit |
| RiskAdmission.StepLossGuardedIff | risk_manager.cpp:413-415 | only a new mark can leave a loss below the floor without a shutdown, until the next look |
| RiskAdmission.RunUnacked | risk_manager.cpp:254-262 | the unacknowledged count never moves over whole calls |
| RiskCaps.FillLowers | exposure_tracker.cpp:37-65 | a fill of any size raises neither side's exposure nor either outstanding total |
| RiskCaps.StepKeeps | risk_manager.cpp:221-464 | every call keeps the two order maps alike, remaining at most registered at most the order limit, and each total the sum of its pending orders; and the caps, unless it is an unsafe modify |
| RiskCaps.RunConsistent | exposure_tracker.cpp:13-53 | so does every run with honest fills, modifies of any kind included |
| RiskCaps.RunCapped | risk_manager.cpp:121-274 | every run with honest fills and safe modifies keeps outstanding totals and exposures within their limits |
| RiskCaps.ExposureBounded | risk_manager.cpp:121-397 | from the start, on every such run, both exposures and the absolute position stay within max_exposure |
| RiskCaps.ArithmeticFits | risk_manager.cpp:138-147 | in capped states, with limits that fit their words, no sum the checks form leaves its machine word |
| RiskCaps.MachineVerdict | risk_manager.cpp:138-156 | in those states the checks computed in 32-bit words, wrapping, give the verdict of the model |
| RiskCaps.MachineFill | position_tracker.cpp:8-14 | and what an honest fill makes of position and totals fits its word |
| RiskEdges.UnsafeModifyBreaksCap | risk_manager.cpp:184-201 | for every partial fill and every larger request: an honest run reaches a capped state in which the check passes a modify that breaks the exposure cap |
| RiskEdges.ModifySoundIff | risk_manager.cpp:184-201 | a same-side modify keeps the caps in all states exactly when the order is untouched or asks for no more than remains |
| RiskEdges.TwoBuysOvershoot | test_risk.cpp:460-480 | two orders, each within max_position when sent, fill to a position beyond it |
| RiskEdges.OvershootReached | risk_manager.cpp:150-156 | for all other limits there is an honest and safe run, with times that never go back, that ends past max_position |
| RiskEdges.PositionLimitBindsIff | risk_manager.cpp:121-156 | for all limits: max_position bounds the position on every honest, safe run exactly when it is not negative and it is 0, or max_exposure is no larger, or at most one unit may be outstanding per side, or the order size or a rate limit is 0, or the profit floor is above 0 |
| RiskRates.LogWindows | risk_manager.cpp:87-115 | forwarded requests fall into windows at least a second apart, none holding more than the limit |
| RiskRates.RateLimited | risk_manager.cpp:87-115 | for all non-decreasing times: at most max_orders_per_second per window, and at most twice that in any second, wherever it starts |
| RiskRates.SeqNumLimited | risk_manager.cpp:109-110 | at most max_orders_per_seq_num are forwarded while the sequence number stays the same |
| RiskShutdown.RunGuarded | risk_manager.cpp:435-464 | in every state between calls a position past max_position means shutdown (true at the start when max_position is not negative) |
| RiskShutdown.ShutdownForGood | risk_manager.cpp:124-126 | after shutdown: still shut down, no new or modify request goes out, and no order is added, on any continuation |
| RiskShutdown.ShutdownLeavesRefused | risk_manager.cpp:346-366 | the shutdown leaves open, unchanged, exactly the orders whose deletion was refused |
| RiskShutdown.FrozenAfterCleanShutdown | risk_manager.cpp:435-464 | if none was refused, position and cash never change again |
| RiskProfit.RunBooks | risk_manager.cpp:379-381 | over any run both trackers move by the same signed sum of accepted fills |
| RiskProfit.ProfitIsMarkedFills | pnl_tracker.cpp:40-42 | total profit is the sum over accepted fills of signed quantity times mark less price |
| RiskProfit.MarkMattersIff | pnl_tracker.h:7-15 | changing the mark changes the total exactly when the position is not flat |
| Base64.Base64Encode | etf_client.cpp:49-68 | for every byte string the loops and the padding yield the encoding of section 4 of RFC 4648 |
| Base64.Accumulate | etf_client.cpp:56-64 | after every byte the output is the code of the whole groups and the settled characters of the next, and the bit count says which |
| Base64.Emit | etf_client.cpp:60-63 | the inner loop appends the six-bit groups that are complete, highest first |
| Base64.Pad | etf_client.cpp:66 | '=' is appended up to the next multiple of four |
| Base64.WrapKeepsLow | etf_client.cpp:58 | the 32-bit overflow of the accumulator changes none of the bits that are still looked at |
| Base64.TableIsAlphabet | etf_client.cpp:50-51 | the 64 characters are those of Table 1 of RFC 4648 |
| Base64.EncodeLength | etf_client.cpp:54 | the length is four for every three bytes, rounded up |
| Base64.RoundTrip | etf_client.cpp:45-68 | decoding an encoding gives the bytes back |
| Base64.DecodesIff | etf_client.cpp:45-68 | a string decodes to some bytes exactly when it is their encoding, so the encoding is injective and canonical |
| OeClients.OeClient.WaitForResponse | oe_client.cpp:98-180 | reads up to the first response that ends the call, updating live orders and firing callbacks for each; returns what that response says |
| OeClients.OeClient.WaitForFill | oe_client.cpp:330-398 | the same under the fill loop's rules, within its time |
| OeClients.OeClient.DeleteOrder | oe_client.cpp:231-243 | one delete request goes out, then one wait |
| OeClients.OeClient.CancelAllOpenOrders | oe_client.cpp:263-270 | each order live at the start is asked for once; what was read on the way is a prefix, read once and in order |
| Responses.ReadsStopAtFirst | oe_client.cpp:98-180 | only the last response read can end a call; true means that it said so; an unexpired response wait otherwise reads to the end of the stream |
| Responses.AnsweredIff | oe_client.cpp:98-180 | the wait reads up to the first answer to its own order or end of any order, and succeeds exactly unless there is none or it is a reject for a reason other than 4, unknown order; begun too late, it reads nothing and fails |
| Responses.CallsConsumePrefix | oe_client.cpp:98-398 | any calls together consume a prefix of the stream and leave what one reading of it leaves |
| Responses.SplitDoesNotMatter | oe_client.cpp:98-398 | two ways of sharing the reading that leave equally much unread agree on live orders and callback history |
| Responses.HistoryIsFired | oe_client.cpp:351-354 | the callbacks fired are those of the responses read, in order, none twice |
| Responses.CallbackAt | oe_client.cpp:115-176 | each response fires one callback of its own kind with its own contents, if one is installed, between those of the earlier and the later responses |
| ArbStreams.FillsAreCallbacks | oe_client.cpp:155-158 | the fills booked from a stream are its fill callbacks |
| Responses.LiveIff | oe_client.h:72-73 | an order is live exactly when acknowledged and not closed since, or live before and never closed |
| Responses.LiveIsAckedNotClosedIff | oe_client.h:72-73 | live is "acknowledged but not closed" exactly when no acknowledgement after a close stands unclosed |
| SymbolManagers.SymbolManager.OnFill | symbol_manager.cpp:102-139 | position, average price and profit of one symbol become what the accounting prescribes; books and published values stay |
| SymbolManagers.SymbolManager.BuyAverage | symbol_manager.cpp:114-120 | the average after a buy, with the 32-bit unsigned product of price and quantity |
| SymbolManagers.SymbolManager.ClosingProfit | symbol_manager.cpp:128-132 | profit on the smaller of the fill and the position held |
| SymbolManagers.SymbolManager.ReadDorm | symbol_manager.cpp:186-194 | one leg shows the published values and the position of its symbol |
| SymbolManagers.SymbolManager.Snapshot | symbol_manager.cpp:178-211 | all legs, both basket sums and both missing flags are those of the published values |
| Accounting.BalancesIff | symbol_manager.cpp:102-139 | inside 32 bits, a fill keeps profit = cash + basis exactly when it is long-only, or meets a listed numerical coincidence |
| Accounting.LongOnlyProfit | symbol_manager.cpp:102-139 | over any long-only run, in any mix of symbols, profit moves by net cash plus the change in position times average price |
| Accounting.RoundTripProfit | symbol_manager.cpp:122-132 | from nothing to nothing, realized profit is the cash made |
| Accounting.ProfitIsCashIff | symbol_manager.cpp:122-132 | over any long-only run from nothing, realized profit is the net cash flow exactly when every position is closed or was acquired for nothing |
| Accounting.ProfitIsNotCash | test_symbol_manager.cpp:45-58 | the test's two fills book a profit of 1 where the cash flow is -209 |
| Accounting.ProductWraps | symbol_manager.cpp:117-119 | price times quantity is a 32-bit product: 2^16 bought at 2^16 are carried at 0 |
| ProfitCas.NoLostUpdate | symbol_manager.cpp:134-138 | for any interleaving of any threads, with spurious failures, the total is its start plus all successful additions |
| ProfitCas.BegunIsAddedOrOutstanding | symbol_manager.cpp:134-138 | what has been begun is either added, once, or still under way |
| ProfitCas.QuiescentTotal | symbol_manager.cpp:134-138 | once all threads have finished, the total has moved by everything begun |
| ProfitCas.RetrySucceeds | symbol_manager.cpp:134-138 | a failed exchange reloads what it expects: tried again at once, it succeeds and adds its amount to the total as it stands |
| ProfitCas.FailureMeansProgress | symbol_manager.cpp:135-138 | an exchange that fails for a reason does so because another addition went through since the load |
| ArbSnapshots.CreationQty | etf_arb.cpp:414-423 | the loop of minima computes the creation size |
| ArbSnapshots.RedemptionQty | etf_arb.cpp:425-434 | the loop of minima computes the redemption size |
| ArbSnapshots.SizesAreLargest | etf_arb.cpp:414-434 | a quantity fits every quoted size and every limit on its side exactly when it is no larger than the size |
| ArbSnapshots.SumsAreTotals | symbol_manager.cpp:196-200 | both basket values are sums over the legs, each leg once |
| ArbSnapshots.CreationPeakIff | etf_arb.cpp:414-423 | the fund held between creation and sale stays within the limit, in all markets, exactly when we were not long the fund |
| ArbSnapshots.RedemptionPeakIff | etf_arb.cpp:425-434 | the same for each dorm between redemption and sale |
| EtfArbs.EtfArb.OnFillEvent | etf_arb.cpp:10-40 | a fill is booked to the symbol and side of its order, arbitrage orders first; a closing fill forgets the order and clears a market-maker id |
| ArbOrders.FillRoutes | etf_arb.cpp:16-39 | a closing fill makes its order unknown and frees the market maker's side it stood for; any other leaves the maps alone; an unknown one changes nothing |
| EtfArbs.EtfArb.OnFillEvents | etf_arb.cpp:10-40 | the fills of a wait are booked one by one, in order |
| EtfArbs.EtfArb.SendOrder | etf_arb.cpp:302-306 | the route is recorded under an id not in use before the order goes out |
| EtfArbs.EtfArb.BookCreation | etf_arb.cpp:241-247 | dorms are sold at their published bids and the fund bought, without orders |
| EtfArbs.EtfArb.BookRedemption | etf_arb.cpp:332-338 | the fund is sold and dorms bought at their published asks, without orders |
| EtfArbs.EtfArb.SendDormSells | etf_arb.cpp:342-350 | ten sell orders, one for each dorm, at the bids of the snapshot, under ids above all in use |
| EtfArbs.EtfArb.TryRedemptionArb | etf_arb.cpp:285-355 | the trade with all its early exits: result, account, orders sent and the in-progress flag |
| EtfArbs.EtfArb.CloseDorm | etf_arb.cpp:361-399 | one dorm: a long is sold at the bid, a short of 8 or more bought back at the ask, if there is a price |
| EtfArbs.EtfArb.UnwindDormLongs | etf_arb.cpp:357-412 | the closing orders of all ten dorms, then the fills |
| Arb.SettlementPreserves | etf_arb.cpp:241-247 | creation and redemption keep every dorm's position plus the fund's, move the fund by the quantity, and touch no other symbol |
| ArbOrders.RedemptionBooks | etf_arb.cpp:332-338 | a redemption books the fund sold at its price, then each dorm bought at its own mark, all of one size |
| ArbOrders.CreationBooks | etf_arb.cpp:241-247 | a creation books each dorm sold at its own mark, then the fund bought |
| Arb.DeliverConserves | etf_arb.cpp:16-37 | in whatever order fills arrive, position plus what is still to be filled changes, symbol by symbol, only by the signed sum of the fills of other orders, market-maker ones included |
| Arb.ForeignApart | etf_arb.cpp:26-37 | fills of other orders leave a symbol alone when none of those orders is for it |
| Arb.CashAtLeast | etf_arb.cpp:302-306 | fills at the limit or better bring in at least what the limits promise |
| Arb.BuyPositions | etf_arb.cpp:302-325 | once the fund order has filled, over both waits and in any split, the fund is up by the quantity and nothing else has moved, but for fills of other orders |
| Arb.BuyAndRedeem | etf_arb.cpp:302-338 | after buying and redeeming, each dorm is up by the quantity and the fund is where it was, but for fills of other orders |
| Arb.SellPositions | etf_arb.cpp:341-352 | once the ten dorm orders have filled, in any order, each dorm is down by the quantity and nothing else has moved, but for fills of other orders |
| Arb.RedemptionMoves | etf_arb.cpp:285-355 | a fully filled redemption trade moves each position by the fills of other orders alone |
| Arb.RedemptionCash | etf_arb.cpp:285-355 | the cash of its own fills is at least quantity times edge, which is positive |
| Arb.RedemptionProfits | etf_arb.cpp:285-355 | both together, for fills in any order and split; a symbol that no other order is for ends exactly where it was |
| ArbOrders.AttemptsIff | etf_arb.cpp:285-294 | it is tried exactly when none is in progress, every dorm has a bid and the fund an ask, the bids are worth more, and one fits every quote and position limit |
| ArbOrders.RedemptionOrders | etf_arb.cpp:301-349 | a trade that goes through sends eleven orders: the fund bought at its ask, each dorm sold at its bid, one size; exactly the orders of the two sheets |
| ArbOrders.RedemptionAccount | etf_arb.cpp:332-338 | besides fills it books the fund out at its ask and each dorm in at its mark |
| ArbOrders.RedemptionEnds | etf_arb.cpp:285-355 | every way it ends: result, flag, number of orders sent, and that short of a redemption only fills are booked |
| ArbStreams.FilledIff | oe_client.cpp:330-398 | the wait for a fill succeeds exactly when the first response that can end it is a closing fill of the order, in time |
| ArbStreams.SeesFillIff | oe_client.cpp:165-169 | of an order that fills, the trade learns so exactly when something ended its first wait before the fill came |
| ArbStreams.UnseenFillHolds | etf_arb.cpp:317-321 | otherwise the attempt ends there: fund bought, nothing redeemed or sold, the way free for the next attempt |
| ArbStreams.ImmediateFillHolds | etf_arb.cpp:317-321 | for every attempt: if the first response is the complete fill, it ends so |
| Arb.ClosingSheetDue | etf_arb.cpp:361-399 | the closing order of a dorm is for exactly what is held |
| ArbOrders.UnwindOrders | etf_arb.cpp:361-399 | one order for each dorm that can be closed, in the order of the dorms, and no other: a long sold at the bid, a short of 8 or more bought back at the ask, all of it |
| ArbOrders.UnwindSheetIsSent | etf_arb.cpp:361-399 | they are exactly the orders of the closing sheet |
| Arb.UnwindFlattens | etf_arb.cpp:357-412 | however far the closing orders have filled, what a dorm still holds is what is left to fill; fully filled means flat, and nothing else moves; all but for fills of other orders |

## Left out

What the model takes as given:

- Messages are values with well-formed types and lengths; a cut-off or foreign record of a snapshot is the record `Other`, symbols are 1 to 13 (the source's accessor is unchecked, symbol_manager.cpp:18-34), header lengths are not zero.
- Sockets, epoll batches of sixteen, multicast, HTTP, login, JSON, URL parsing, logging, signal handlers and the messages_processed counter are I/O and are not modelled; a wait reports a list of arrivals, a response stream is a list, a lost connection is its end.
- Clocks are arguments: explicit times for the rate window, an early return for the two waits.
- Memory orders are replaced by sequentially consistent interleavings of single stores, loads and exchanges.
- `double` amounts are exact: `real` in the accounting, whole numbers in the risk engine and in the interleaved profit total.
- A failed exchange, service or sender call is an argument of the call that makes it; senders do not call back into the engine while it waits for them.

Stated weaker than the whole, or only in part:

- CatchUp.ListenerRefinesSchedule: says what is read and in which order, not that it equals the exchange's book; the drain does not skip live messages already contained in the snapshot.
- SnapshotRestore.Restore: the book's last sequence number is not restored by the code and not claimed; a symbol's orders fit its block, since the code does not go on with a block in the next packet. Packets of several blocks are `SnapshotRestore.RestoreAll`.
- RiskCaps.ExposureBounded: assumes that fills never exceed what remains and close exactly when nothing does, as risk_manager.h:95-97 puts it.
- RiskManagers.PositionTracker.OnFill: computes in unbounded integers; inside the caps that is what the 32-bit word holds (`RiskCaps.MachineFill`).
- RiskManagers.PositionTracker.WouldExceedLimit: the same; inside the caps the 32-bit check gives the same answer (`RiskCaps.MachineVerdict`).
- RiskManagers.ExposureTracker.OnOrderSent: the same; inside the caps the totals fit their words (`RiskCaps.ArithmeticFits`).
- RiskManagers.ExposureTracker.OnOrderRemoved: the same.
- RiskManagers.ExposureTracker.OnFill: the same (`RiskCaps.MachineFill`).
- RiskManagers.ExposureTracker.WouldExceedExposure: the same (`RiskCaps.MachineVerdict`).
- RiskManagers.RiskManager.CheckAddedQty: the same (`RiskCaps.MachineVerdict`).
- RiskManagers.RiskManager.CheckNewOrder: the same, through `RiskManagers.RiskManager.CheckAddedQty`.
- RiskManagers.RiskManager.CheckModifyOrder: the same, through `RiskManagers.RiskManager.CheckAddedQty`.
- RiskManagers.RiskManager.SendNewOrder: no callback of the exchange comes in while the sender waits for the answer.
- RiskManagers.RiskManager.ModifyOrder: no callback of the exchange comes in while the sender waits for the answer.
- RiskCaps.ArithmeticFits: outside the caps, or for limits that do not fit together into a word, 32-bit wrap-around of the risk engine is not modelled.
- RiskEdges.PositionLimitBindsIff: leaves out max_position = 2^31 - 1, where a position past the limit has no 32-bit value.
- Accounting.BalancesIff: holds for fills inside 32 bits; the wrap of the position and of price times quantity is in the functions, the signed overflow of the new quantity in the average is not.
- Responses.LiveIff: a true result of a wait does not mean that the order waited for was acknowledged, and nothing of the kind is claimed; `Responses.ReadsStopAtFirst` says what it does mean.
- OeClients.OeClient.WaitForFill: its deadline is a number of reads after which the time is used up.
- EtfArbs.EtfArb.TryRedemptionArb: the market data stands still during the trade, so that the asks at settlement are the published ones; the start time is not kept; the answers of its waits are arguments, which `ArbStreams` derives from one stream.
- SymbolManagers.SymbolManager.Snapshot: reads all values at one instant and sums them unbounded; what single fields can be between stores is in `TopOfBookRace`.
- SymbolManagers.SymbolManager.OnFill: one fill at a time; the compare-exchange loop on the profit total is one addition here, and is modelled step by step, with other threads, in `ProfitCas`.

Not modelled:

- The rest of `try_creation_arb` (etf_arb.cpp:134-283), in particular its fund-selling loop, which re-sends without cancelling and can wait for a bid forever.
- The loops `run` and `run_with_mm`, and the market maker's own position limit.
- `would_breach_limit`, `pnl_near_limit`, saving and loading positions: easy members.
- `get_unrealized_pnl` (pnl_tracker.cpp:30-34) as a part of the total: realized and unrealized profit do not add up to it in general.
- Placing, modifying and mass-sending orders of the order-entry client beyond the waits they share.
