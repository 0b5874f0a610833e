# The LOB order book server, modelled and proved in Dafny

LOB keeps limit order books of several exchanges up to date and serves them to subscribers. This
project models its core and proves what that core is for.

**The ladder** (`PriceLadder.dfy`). One side of a book is a flat array of quantities over a window of
prices that follows the market. `PriceLadder` is the class with the array, the window base and the
cached count and best indices, updated in place. It is proved to be the finite map of `LadderSpec`:
setting a price is a map update, preceded by a restriction of the map when the window moves. Machine
integers are subset types of `int`, so every difference, product and index is proved to fit.

**The book** (`OrderBook.dfy`). Two ladders, and beside each the list of its best levels (the OFI
view), maintained by insertion, eviction, deletion and refill. The class invariant is that each list
is the one a rebuild from the ladder would give, whatever the depth, zero included. The source writes
the bid and the ask code out side by side; the model writes it once over the order `Better(isBid, ..)`.
`BookSpec` states the book over maps, without the views; `OfiView` holds the list lemmas.

**Order flow imbalance** (`Conservation.dfy`, `OfiAccumulator.dfy`). The deltas reported by the book,
folded the way the update callback folds them, add up to the change of the quantity on view. This is
exact while the window stays. When it moves, levels are left behind without a delta, and the law holds
with exactly their quantity as drift. Both are proved for one change, a batch, a run of batches, and a
run of sequenced updates with stale and refused ones among them. Read one by one, the deltas tell the
truth: their flags are membership in the view before and after, their quantities those of the new
ladder, and what they do not mention neither entered nor left (`DeltasTell`).

**The exchange's truth** (`History.dfy`). The exchange is a ledger of quantities by sequence number.
After any sequence of snapshots, updates and clears no level held is wrong. A level can be missing,
and it is said exactly which: after a full snapshot and any run of updates the ladders say what the
exchange says about their windows if and only if the exchange has nothing at the prices that a move
brought into a window and no update has listed since (`RunCompleteIff`; for a single move
`MoveCompleteIff`). Hence nothing is missing until a window first moves. If no level of the snapshot
lay ahead of its windows, and a snapshot listed best first has none, nothing is missing until an
emptied side moves its window back, away from the market (`BestFirstComplete`). `MoveBackForgets` is
such a run at the half range that every order book has. A run of updates none of which leaves a
sequence number out is accepted in full, overlaps included, and leaves the book right at the largest
number reached (`KeepsUpIff`, `ContiguousRun`).

**The feed** (`Symbols.dfy`, `Feed.dfy`, `FeedRuns.dfy`, `FeedHistory.dfy`). The Binance adapter as a
transition system: the WebSocket thread, the resync worker and the start routine, one step per lock
section or atomic access, for any number of symbols. Proved over all interleavings: the hand-off from
snapshot to live messages loses and reorders nothing, failed attempts are repeated exactly as often as
allowed, resyncs are served in order and never lost, and all books stay sound. `FeedHistory` states
these claims over the steps of a run: the messages taken from the socket since the last clear, the
snapshot loaded, the attempts failed, the resyncs asked for. Some fields of a symbol's record are
bookkeeping for the proofs, and `BookkeepingIsHistory` proves that they say just what the steps say.
The hand-off is claimed for symbols that lost nothing since their last clear (`LostNothing`): no
message met a full buffer, which takes more than 5000 early ones (`EarlyMessageLostIff`), no replayed
message was refused, and no snapshot came for a book that had one already.

**Subscribers** (`ClientLog.dfy`, `Replica.dfy`, `Subscribers.dfy`, `SubscriberRuns.dfy`,
`SubscriberServer.dfy`). The fan-out of one stream as a transition system with a log of all messages
put on each client's socket, and what a client makes of its log. Updates carry absolute quantities, so
a snapshot that already holds the batch about to be broadcast is not disturbed by it. The numbers of
the updates newer than a snapshot are contiguous from its stamp on. An update can be sent before the
snapshot it follows; a client that holds such updates back until the snapshot comes has the server's
levels whenever nothing is on its way. A client that does not is right exactly when at the prices it
missed the snapshot has the book's levels already (`UnheldConvergesIff`; `EarlyUpdateRun` is a run in
which it is wrong). The comment at src/subscriber_server.hpp:298-299 says that all broadcasts that come
after the lock is released are newer than the snapshot. That is false of a subscription exactly when an
update was still to be sent to the client as it subscribed and it has got something since: that update
comes first, with the number of the snapshot (`StaleExactly`). A client gets there by subscribing
again, whether it unsubscribes before or not (`ResubscribeRun`). The class `SubscriberServer` is the
server's own state with its lock sections; each of them is a step of the transition system, and a
whole broadcast with its removals is a run of steps.

**Decimals** (`Decimal.dfy`, `SafeArithmetic.dfy`, `StreamName.dfy`). The fixed-point parser accepts
exactly the decimal numerals and returns exactly their value or an error, and inverts the printer on
all 64-bit integers. What is printed is the shortest numeral with a digit before the point; without
that digit a shorter one exists exactly between 0 and 1 (`ShorterIff`). The comment on `parseDecimal`
(src/decimal.hpp:41-52) asks for an integer part and allows a sign before it. The code does without
the integer part where there is no sign: it accepts ".5" and rejects "-.5" (`PointFirst`). The model
follows the code.

What callers owe: prices are positive multiples of the tick whose window fits 64 bits, quantities are
not negative, and messages are already parsed. Main results carry no other preconditions than these
and, where the exchange is spoken of, that it tells the truth.

## Model

| member | source | states |
|---|---|---|
| Int64.CDivTruncates | src/price_ladder.cpp:25-28 | C++ division leaves a remainder smaller than the divisor with the dividend's sign |
| LadderSpec.ArithmeticFits | src/price_ladder.cpp:25-58 | for every reachable base and acceptable price each difference and product fits 64 bits and the index of a price in the window is inside the array |
| LadderSpec.CentreIsMiddle | src/price_ladder.cpp:54-58 | the window of a price reaches half range ticks below and half range ticks above it |
| BookSpec.SetValid | src/price_ladder.cpp:98-139 | the window base stays a tick multiple that fits, and every level stays in the window with a positive quantity |
| PriceLadder.PriceLadder.Make | src/price_ladder.cpp:11-23 | a ladder is made exactly when the tick is positive and the size fits an int; it is empty and has no window, and is usable when its span fits 64 bits |
| PriceLadder.PriceLadder.InRange | src/price_ladder.cpp:34-44 | the index test on the truncated quotient is membership in the window |
| PriceLadder.PriceLadder.InitCenter | src/price_ladder.cpp:54-58 | the first price is the centre of the window |
| PriceLadder.PriceLadder.RebuildBestIndices | src/price_ladder.cpp:60-71 | the count is the number of active cells and the indices are the highest and lowest active cell, or -1 |
| PriceLadder.PriceLadder.Memmove | src/price_ladder.cpp:81-82 | an overlapping move copies the old contents |
| PriceLadder.PriceLadder.ShiftCells | src/price_ladder.cpp:78-94 | in all three cases cell i holds what cell i + shift held, or zero when that was outside |
| PriceLadder.RepresentsShift | src/price_ladder.cpp:73-96 | shifted cells under the new base are the restriction of the map to the new window: survivors keep price and quantity |
| PriceLadder.PriceLadder.ShiftSize | src/price_ladder.cpp:74-76 | the distance between two bases is a whole number of cells, in either direction |
| PriceLadder.PriceLadder.Recenter | src/price_ladder.cpp:73-96 | the window is centred on the price and the map is restricted to it; the caches are right again |
| PriceLadder.PriceLadder.WriteCell | src/price_ladder.cpp:108-137 | inside the window a set is one map update or removal, and count and best indices stay right |
| PriceLadder.PriceLadder.UpdateHigh | src/price_ladder.cpp:119-126 | the walk down ends at the highest active cell or -1 |
| PriceLadder.PriceLadder.UpdateLow | src/price_ladder.cpp:128-137 | the walk up ends at the lowest active cell or -1 |
| PriceLadder.PriceLadder.Set | src/price_ladder.cpp:98-139 | the ladder becomes the specified map, and the result says whether the window moved |
| PriceLadder.PriceLadder.Get | src/price_ladder.cpp:141-146 | the map's quantity, 0 when absent or outside the window |
| PriceLadder.PriceLadder.Clear | src/price_ladder.cpp:148-156 | no levels, no window, all cells zero |
| PriceLadder.PriceLadder.ActiveCountIsSize | src/price_ladder.hpp:35 | the cached count is the number of levels, and the indices are -1 exactly when there are none |
| PriceLadder.PriceLadder.BestHigh | src/price_ladder.cpp:158-163 | the highest level, 0 when empty |
| PriceLadder.PriceLadder.BestLow | src/price_ladder.cpp:165-170 | the lowest level, 0 when empty |
| PriceLadder.PriceLadder.PrevBelow | src/price_ladder.cpp:172-188 | the exact predecessor among the levels of any price, aligned or not, in the window or not; 0 when there is none |
| PriceLadder.PriceLadder.NextAbove | src/price_ladder.cpp:190-209 | the exact successor, likewise |
| PriceLadder.PriceLadder.ForEach | src/price_ladder.hpp:59-66 | visits exactly the levels in ascending order, as many as the cached count |
| Levels.TopIsUnique | src/order_book.cpp:267-285 | a sorted list of levels with their current quantities that omits only worse levels when full is the list of the best k |
| Levels.TopLength | src/order_book.cpp:272-283 | the view has min(depth, number of levels) entries |
| Levels.ListsIsTop | src/price_ladder.hpp:59-66 | a walk from the best level with enough room enumerates exactly the full listing, in the same order |
| Levels.TopIsPrefix | src/order_book.cpp:326-331 | the view is the front of the full listing of its side |
| OfiView.LowerBoundFinds | src/order_book.cpp:190-192 | the place found by lower_bound holds the price exactly when the price is in the view |
| OfiView.ReplaceQty | src/order_book.cpp:211-213 | a new quantity in place gives the best levels of the changed map |
| OfiView.EraseRefill | src/order_book.cpp:195-210 | erasing and appending the next level from the ladder gives the best levels again; a refill happens only to a full view |
| OfiView.InsertFits | src/order_book.cpp:214-218 | a level entering a view with room was not in the ladder, and the insertion gives the best levels |
| OfiView.InsertEvict | src/order_book.cpp:214-223 | a level beating the worst of a full view pushes out exactly that one |
| OfiView.StaysOutside | src/order_book.cpp:214-217 | any other change of a level outside the view leaves the best levels as they are |
| OfiView.WalkEnds | src/order_book.cpp:267-285 | a walk along the ladder that runs out of levels or of room has built the best k levels |
| OrderBook.OrderBook.Make | src/order_book.cpp:15-16 | an empty, unapplied book exactly when the tick is positive, with valid ladders and views when the span of its windows fits 64 bits |
| OrderBook.OrderBook.WalkLadder | src/order_book.cpp:267-285 | iterating predecessor or successor from the best level terminates and yields the best levels |
| OrderBook.OrderBook.RebuildOfiSide | src/order_book.cpp:267-285 | one view is rebuilt, the other untouched |
| OrderBook.OrderBook.EraseFromView | src/order_book.cpp:195-210 | after a deletion the view is what a rebuild gives, and the reported replacement is the level that entered |
| OrderBook.OrderBook.InsertIntoView | src/order_book.cpp:214-224 | after an insertion the view is what a rebuild gives, and the reported eviction is the level that left |
| OrderBook.OrderBook.UpdateOfiView | src/order_book.cpp:186-265 | in every branch and for every depth the view is what a rebuild gives |
| OrderBook.OrderBook.IsDeepPrice | src/order_book.cpp:133-144 | the guard drops exactly the prices beyond the far end of a window that holds levels |
| OrderBook.OrderBook.SetLevel | src/order_book.cpp:146-153 | the ladder changes as specified, and the view is rebuilt first when the window moved |
| OrderBook.OrderBook.AppendReport | src/order_book.cpp:169-183 | the deltas are the level's own, then the eviction, then the replacement, with their flags and kinds |
| OrderBook.OrderBook.ApplyLevelChange | src/order_book.cpp:127-184 | ladder, view and appended deltas are as specified; the view equals a rebuild |
| OrderBook.OrderBook.ApplySide | src/order_book.cpp:68-73 | a loop over one side's levels is the fold of the specified changes |
| OrderBook.OrderBook.ApplyUpdate | src/order_book.cpp:55-76 | refused exactly when it goes beyond the id and leaves a number out; on success the id becomes the larger of the two; a stale or refused update changes and reports nothing, any other applies asks then bids |
| OrderBook.OrderBook.ApplyDelta | src/order_book.cpp:102-125 | bids then asks are applied with no sequence check |
| OrderBook.OrderBook.ApplySnapshot | src/order_book.cpp:18-53 | both sides are loaded afresh, each into the window of its first level, and both views rebuilt |
| BookSpec.LoadValid | src/order_book.cpp:36-46 | loading never moves the window once placed, and a window exists exactly when some level had a quantity |
| BookSpec.LoadPositive | src/order_book.cpp:21-30 | dropping empty levels while parsing is the same as skipping them while loading |
| OrderBook.OrderBook.Clear | src/order_book.cpp:287-295 | the book is empty, unapplied, at id 0 |
| OrderBook.OrderBook.GetSnapshot | src/order_book.cpp:318-334 | asks strictly ascending and bids strictly descending list exactly the levels, and each view is the front of its list; nothing when unapplied |
| OrderBook.OrderBook.GetStats | src/order_book.cpp:304-316 | the level counts, and with a positive depth the best prices of the ladders |
| Conservation.ViewAccounts | src/order_book.cpp:186-265 | the change of a view's total is the level's delta if it is or was on view, minus the eviction, plus the replacement |
| Conservation.DeltasTell | src/order_book.cpp:155-183 | every delta's flags are membership of its price in the view before and after, its quantity is the new ladder's, its difference that of the level or of the view; a price without delta is on view after exactly if it was before |
| Conservation.ReportingOrder | src/order_book.cpp:66-125 | an update reports all asks before all bids, a plain delta message all bids before all asks |
| Conservation.MovedViews | src/order_book.cpp:138-153 | when a window moves, the new view is the updated level in front of a front part of the old view |
| Conservation.WindowPassed | src/order_book.cpp:133-144 | a side that holds levels moves its window only for a price better than all of them |
| Conservation.MovedViewKeepsFront | src/order_book.cpp:146-153 | the new view without the updated price is part of the old one, and the updated level heads it |
| Conservation.ChangeCounts | src/order_book.cpp:127-184 | the counted deltas exceed the change of the view's total by exactly the quantity of old view levels missing from the new view when the window moved, and by nothing otherwise |
| Conservation.BatchCounts | src/order_book.cpp:66-75 | the same law for a batch on both sides, evictions and refills included |
| Conservation.BackfillCountsNothing | src/ofi_types.hpp:28-32 | replayed updates, with their secondary deltas, never count |
| OfiAccumulator.CheckedClamps | src/utils/checked_arith.hpp:8-18 | the checked operations clamp the true result to 64 bits and are exact just when it fits |
| OfiAccumulator.Accumulator.FoldDeltas | src/main.cpp:315-323 | the loop is the saturating fold, and the flag says whether anything counted |
| OfiAccumulator.Accumulator.OnUpdate | src/main.cpp:308-342 | the accumulator gains the batch's fold, saturating |
| OfiAccumulator.FoldExactIff | src/main.cpp:315-323 | the fold equals the exact sum at every prefix exactly when every partial sum fits |
| OfiAccumulator.DeltasOfBatchFit | src/order_book.cpp:155-182 | every delta of a batch is a 64-bit difference |
| OfiAccumulator.CalledExactly | src/main.cpp:315-341 | without saturation a run of callbacks leaves the accumulator with the exact sum of everything counted |
| OfiAccumulator.RunConserves | src/main.cpp:315-341 | over a whole run what is counted is the change of bids minus asks on view, plus the drift of moved windows |
| OfiAccumulator.RunAccumulates | src/main.cpp:315-341 | the accumulator grows by exactly that, and with no moved window it mirrors the balance on view |
| OfiAccumulator.UpdatesAreBatches | src/order_book.cpp:55-76 | a run of sequenced updates has the books and, callback for callback, the deltas of a run of batches, stale and refused updates being empty ones |
| OfiAccumulator.UpdatesConserve | src/main.cpp:308-342 | over any run of sequenced updates the accumulator grows by the change of the balance on view plus the drift, and by the change alone when no window moves |
| History.BatchLevels | src/order_book.cpp:68-73 | after a batch with drops and moves, a level edited by it has the quantity of its last edit and any other its old one |
| History.UpdateLevels | src/order_book.cpp:55-76 | after an accepted update a level has the last quantity that its side of the message lists for it, or its old one |
| History.LoadLevels | src/order_book.cpp:36-46 | of several snapshot entries for a price the last with a quantity is loaded |
| History.UpdateSound | src/order_book.cpp:55-76 | an accepted, overlapping or stale update keeps every level right at the new id |
| History.SnapshotSound | src/order_book.cpp:32-46 | a loaded snapshot holds only right levels |
| History.RunSound | src/order_book.cpp:18-76 | after any sequence of snapshots, updates and clears, also back in sequence, every level held is the exchange's at the book's id |
| History.KeepsUpIff | src/order_book.cpp:59-75 | a book reaches the largest number after every update of a run exactly when no update leaves a sequence number out |
| History.ContiguousRun | src/order_book.cpp:18-76 | after a full snapshot and such a run the book is at the largest number, holds only the exchange's levels at it, and until a window moves misses none |
| History.DroppedIsWorse | src/order_book.cpp:133-144 | a dropped price is strictly worse than every level held on its side |
| History.MovesBackOnlyWhenEmpty | src/order_book.cpp:138-146 | a window moves away from the market only on an emptied side |
| History.ChangeExact | src/order_book.cpp:127-153 | a change keeps the ladder right at exactly the prices that were known and are still covered, and at its own |
| History.ChangeCompleteIff | src/order_book.cpp:127-153 | a complete ladder stays complete unless the window moves and the exchange has a level at a price newly covered |
| History.MoveCompleteIff | src/order_book.cpp:138-153 | after a move the window is complete exactly when the exchange has no level at any other price of the new window outside the old one |
| History.SnapshotExact | src/order_book.cpp:36-46 | a full snapshot leaves each ladder right wherever it is trusted and empty elsewhere |
| History.BestFirstHasNothingAhead | src/order_book.cpp:36-46 | of a side listed best first no level with a quantity lies ahead of the window, which its first such level places |
| History.RunExact | src/order_book.cpp:36-153 | after a full snapshot and any run of updates the ladders are right at the prices known from the messages and have no level at any other |
| History.RunCompleteIff | src/order_book.cpp:36-153 | at any point of any such run the ladders are complete exactly when the exchange has no level at covered prices not known |
| History.RunComplete | src/order_book.cpp:36-153 | every price in a window has the exchange's quantity until the window first moves; with nothing ahead of the windows, until an emptied side moves back |
| History.BestFirstComplete | src/order_book.cpp:36-153 | the latter holds after every snapshot listed best first |
| History.MoveBackForgets | src/order_book.cpp:138-146 | a faithful run of an order book after which a price in the window is missing its level |
| Replica.OverwriteForgets | src/subscriber_server.hpp:154-162 | what absolute quantities leave at a listed price does not depend on the start, and unlisted prices keep theirs |
| Replica.OverwriteAgain | src/subscriber_server.hpp:265-295 | a copy that already has the batch still agrees with the book after receiving it |
| Replica.ChangeBroadcasts | src/subscriber_server.hpp:156-163 | of one change exactly the level itself is broadcast, and nothing when it is dropped or unchanged |
| Replica.BatchReplicates | src/subscriber_server.hpp:154-185 | a copy that has the book's levels has them after the batch; an equal copy stays equal if no window moved |
| ClientLog.ListenIsReplay | src/subscriber_server.hpp:298-299 | a client that holds early updates back has the latest snapshot with all newer updates, whatever the order of arrival |
| ClientLog.UnheldExactly | src/subscriber_server.hpp:298-299 | a client that does not is right at every price but those listed only by newer updates that came early, where it has the snapshot's quantity |
| Subscribers.CollectKeeps | src/subscriber_server.hpp:166-181 | fixing number and targets together keeps the invariant of every subscription |
| Subscribers.SendKeeps | src/subscriber_server.hpp:186-194 | sending to one client keeps it |
| Subscribers.SubscribeKeeps | src/subscriber_server.hpp:265-296 | a subscription begins in it, also when the snapshot holds a batch not yet broadcast |
| Subscribers.SendSnapshotKeeps | src/subscriber_server.hpp:298-306 | sending the snapshot, however late, keeps it |
| Subscribers.StepKeepsInv | src/subscriber_server.hpp:90-328 | every step of every thread keeps it |
| SubscriberRuns.ContiguousDelivery | src/subscriber_server.hpp:166-204 | in every run the updates on a socket newer than the snapshot are numbered from its stamp on without gap or repetition, none missing while the subscription lasts but the one in flight |
| SubscriberRuns.StaleExactly | src/subscriber_server.hpp:298-299 | in every run some update sent after the lock section is not newer than the snapshot exactly when one was in flight to the client at the lock section and something was sent since; it is then the first one and the only one |
| SubscriberRuns.ResubscribeInFlight | src/subscriber_server.hpp:186-194 | subscribing while an update waits makes it arrive after the lock section with the number of the snapshot |
| SubscriberRuns.ResubscribeRun | src/subscriber_server.hpp:186-299 | a run from the start that gets there, with or without unsubscribing before |
| SubscriberRuns.SubscribersConverge | src/subscriber_server.hpp:278-306 | in every run, with nothing on its way, a live client that holds early updates back has every level of the server's book with its quantity, and equals it if no window moved |
| SubscriberRuns.UnheldConvergesIff | src/subscriber_server.hpp:298-299 | a client that does not agrees with the book exactly when the snapshot has the book's level at each price missed |
| SubscriberRuns.EarlyUpdateRun | src/subscriber_server.hpp:186-306 | a run in which an update overtakes the snapshot and such a client ends up wrong |
| SubscriberRuns.NothingAfterUnsubscribe | src/subscriber_server.hpp:319-328 | after an unsubscription and until the next subscription a client gets no update but the one already on its way |
| SubscriberRuns.NothingAfterClose | src/subscriber_server.hpp:186-203 | once its socket is closed, by either side, a client gets nothing |
| SubscriberRuns.BroadcastRuns | src/subscriber_server.hpp:171-204 | a whole broadcast is a run of steps that sends to all targets but the overloaded ones and closes and forgets those |
| SubscriberRuns.BroadcastedTo | src/subscriber_server.hpp:186-203 | each open target gets the update once unless it is overloaded; overloaded targets are neither open nor subscribed afterwards |
| SubscriberServer.SplitDeltas | src/subscriber_server.hpp:154-163 | exactly the genuine deltas, split by side in order |
| SubscriberServer.SubscriberServer.NextBroadcast | src/subscriber_server.hpp:171-181 | the stream's next number, and as targets exactly the subscribed clients with a live socket |
| SubscriberServer.SubscriberServer.BroadcastUpdate | src/subscriber_server.hpp:151-205 | nothing without genuine deltas; otherwise one number, sent to all targets but those over the limit, who are removed and counted |
| SubscriberServer.SubscriberServer.Subscribe | src/subscriber_server.hpp:256-306 | a text that names no stream gets an error; a stream is registered and gets a snapshot of all its levels with its number if it has an applied book; an entry made by a subscription alone is never a target |
| SubscriberServer.SubscriberServer.HandleSubscribe | src/subscriber_server.hpp:254-307 | all texts of a request are answered in order, and exactly the streams named are registered |
| SubscriberServer.SubscriberServer.HandleUnsubscribe | src/subscriber_server.hpp:319-328 | exactly the streams named are dropped, for this client only; other texts are ignored |
| SubscriberServer.RepliesAsSubscribed | src/subscriber_server.hpp:256-306 | the reply for a stream has the stamp and the sides of the protocol's new subscription, each listed in full and best first; none without an applied book; an error for a text that names no stream |
| SubscriberServer.RepliesInOrder | src/subscriber_server.hpp:256-306 | texts are answered one after the other |
| SubscriberServer.RequestsExactly | src/subscriber_server.hpp:295-328 | a request adds or drops exactly the streams named, for this client only, and no socket changes |
| SubscriberServer.UnsubscribedIsNoTarget | src/subscriber_server.hpp:175-328 | an unsubscribed client is no target of the stream any more |
| SubscriberServer.StartShows | src/subscriber_server.hpp:265-296 | a fresh server is the protocol's initial state |
| SubscriberServer.BroadcastIsCollect | src/subscriber_server.hpp:171-181 | the server's targets and number are a step of the fan-out protocol, and the state stays in step with it |
| SubscriberServer.BroadcastIsRun | src/subscriber_server.hpp:151-205 | a broadcast of the server, removals included, extends any run of the protocol, and the server stays in step |
| SubscriberServer.ConnectionsShow | src/subscriber_server.hpp:90-108 | connecting, and forgetting a closed client, are steps of the protocol |
| SubscriberServer.SubscriptionsShow | src/subscriber_server.hpp:279-328 | registering and deregistering a stream are steps of the protocol |
| SubscriberServer.OtherStreamsDoNotShow | src/subscriber_server.hpp:171-181 | what is done for another stream changes neither subscribers nor numbers of this one |
| Symbols.ReceiveKeeps | src/binance_adapter.cpp:239-246 | choosing the path by the flag keeps the symbol's invariant: a raised flag on a clean symbol means the snapshot is in and the buffer empty |
| Symbols.BufferKeeps | src/binance_adapter.cpp:245-252 | early messages are kept in arrival order |
| Symbols.ApplyKeeps | src/binance_adapter.cpp:337-368 | a live message extends the sequence the book mirrors |
| Symbols.ClearBookKeeps | src/binance_adapter.cpp:264-273 | a cleared book starts a new sequence with an empty buffer |
| Symbols.LoadKeeps | src/binance_adapter.cpp:112-116 | a first snapshot starts the replay of everything buffered |
| Symbols.ReplayKeeps | src/binance_adapter.cpp:117-124 | each replayed message extends the mirrored part by one, or the replay ends refused with an empty buffer |
| Symbols.ReplayEndKeeps | src/binance_adapter.cpp:125-130 | a finished replay has mirrored all messages |
| Feed.StepKeepsSyms | src/binance_adapter.cpp:109-372 | every step of every thread keeps every symbol's invariant |
| Feed.ReplayedIsOwed | src/binance_adapter.cpp:115-130 | a symbol under replay has its snapshot unless it was just cleared |
| Feed.StepKeepsInv | src/binance_adapter.cpp:109-436 | every step keeps the invariant of the whole adapter |
| FeedHistory.BookkeepingIsHistory | src/binance_adapter.cpp:109-372 | the bookkeeping of a symbol is what the steps of the run say: messages taken since the last clear, snapshot loaded, nothing lost |
| FeedHistory.HandOff | src/binance_adapter.cpp:109-368 | for a symbol that lost nothing the book is the snapshot with exactly the messages taken since the clear in arrival order, none leaving a number out; before the snapshot they are all in the buffer |
| FeedHistory.EarlyMessageLostIff | src/binance_adapter.cpp:245-252 | a message before the snapshot is lost exactly when it is not among the first 5000 |
| FeedHistory.BufferIsFirst5000 | src/binance_adapter.cpp:245-252 | before the snapshot the buffer holds exactly the first 5000 messages taken, in arrival order |
| FeedHistory.FastUntilLowered | src/binance_adapter.cpp:125-255 | after a finished replay, or a message that finds the snapshot in, every message goes straight to the book until the flag is lowered |
| FeedHistory.AttemptsExactly | src/binance_adapter.cpp:401-573 | for worker and start routine alike, a failed attempt is followed by the next one on the same symbol until the allowed number has failed, and only then the symbol is abandoned |
| FeedHistory.GaveUpMeansDead | src/binance_adapter.cpp:420-424 | a symbol counts as given up only since a step at which all its attempts had failed |
| FeedHistory.ResyncNeverLost | src/binance_adapter.cpp:387-424 | after a successful start a symbol without snapshot is queued, with the worker and an attempt left, on its way to the queue, or all attempts allowed on it have failed since the worker took it |
| FeedHistory.StartReport | src/binance_adapter.cpp:543-583 | the start routine reports success exactly when no symbol ran out of attempts |
| FeedHistory.QueueIsFifo | src/binance_adapter.cpp:390-398 | the worker serves all resyncs in the order they were asked for, each once |
| FeedRuns.LosesCleanOnlyBy | src/binance_adapter.cpp:117-124 | a symbol loses the hand-off guarantee only by a full buffer, a refused replay, or a snapshot over a snapshot |
| FeedRuns.BooksAlwaysSound | src/binance_adapter.cpp:109-372 | in every interleaving every book holds only levels the exchange has at the book's id |
| SafeArithmetic.MultiplyFits | src/safe_arithmetic.hpp:6-25 | in all sign cases the truncating guards fire exactly when the product is out of range |
| SafeArithmetic.ExactOrError | src/safe_arithmetic.hpp:6-50 | each operation is the true result when it fits and an error when it does not |
| Decimal.PaddingFits | src/decimal.hpp:35-38 | the table of powers pads the fraction to eight places |
| Decimal.DigitValues | src/decimal.hpp:53-78 | the ten digits have the values 0 to 9 |
| Decimal.OneIsScale | src/decimal.hpp:53-78 | "1" is 100000000 units |
| Decimal.LastPlaceIsOne | src/decimal.hpp:53-78 | the eighth place is one unit |
| Decimal.AssembleExact | src/decimal.hpp:72-77 | no intermediate step overflows unless the result does |
| Decimal.ParseExact | src/decimal.hpp:53-78 | every decimal numeral parses to exactly its value times 10^8 when that fits, and is an error otherwise |
| Decimal.ParseOnlyNumerals | src/decimal.hpp:53-78 | nothing but decimal numerals is accepted |
| Decimal.PointFirst | src/decimal.hpp:53-78 | a text without a digit before the point is accepted without a sign and rejected with one |
| Decimal.Magnitude | src/subscriber_protocol.hpp:93-97 | unsigned negation gives the magnitude of every 64-bit value, the minimum included |
| Decimal.FormatScaled | src/subscriber_protocol.hpp:91-109 | the printed text is the canonical numeral and parses back to the value |
| Decimal.CanonicalDenotes | src/subscriber_protocol.hpp:91-109 | the canonical numeral is well formed and denotes the value |
| Decimal.ParseInvertsFormat | src/subscriber_protocol.hpp:91-109 | parsing inverts printing on all 64-bit values |
| Decimal.FormatIsInjective | src/subscriber_protocol.hpp:91-109 | different values print differently |
| Decimal.FormatCanonicalises | src/subscriber_protocol.hpp:79-90 | printing what was parsed identifies texts exactly when they denote the same value |
| Decimal.CanonicalIsNormal | src/subscriber_protocol.hpp:99-107 | the printed text has no leading and no trailing zeros |
| Decimal.CanonicalIsShortest | src/subscriber_protocol.hpp:91-109 | no numeral with a digit before the point that denotes the value is shorter, and leaving that digit out saves one character |
| Decimal.ShorterIff | src/subscriber_protocol.hpp:91-109 | a shorter numeral exists exactly for the values between 0 and 1, as ".5" for "0.5" |
| StreamName.ParseInvertsText | src/subscriber_protocol.hpp:27-42 | exactly the texts of streams with non-empty dot-free parts are accepted, each as its own stream |
| StreamName.AcceptedIsKeyAndSuffix | src/subscriber_protocol.hpp:27-42 | an accepted text is its key, exchange and symbol with a dot between, followed by ".book" |
| StreamName.KeysDiffer | src/subscriber_server.hpp:262-263 | different streams have different keys |

## Left out

- SubscriberServer.SubscriberServer.BroadcastUpdate: runs without interference, with the clients over the buffer limit given as a parameter; interleavings are in Subscribers.
- SubscriberServer.SubscriberServer.HandleSubscribe: runs without interference between its streams; a request is already parsed into its list of texts.
- PriceLadder.PriceLadder.InRange: and the queries PrevBelow and NextAbove take arguments whose distance from the window fits 64 bits; beyond that the subtraction in the code overflows, and so does the index of NextAbove at the largest distance with a tick of 1.
- SubscriberRuns.SubscribersConverge: speaks of one epoch, in which the book is neither cleared nor loaded again.
- FeedHistory.HandOff: speaks of symbols that lost nothing since their last clear; after a lost message or a replaced snapshot only FeedRuns.BooksAlwaysSound is claimed.
- The adapter and the interleaved fan-out are modelled on values, one record per state and one function per atomic step, not as objects shared by threads; in-place update there is the replacement of a record.
- A replay stopped by an exception on a malformed buffered message: messages are already parsed, so they cannot be malformed.
- Sockets, HTTP, rate-limit waits, the watchdog, stopping threads, and the time stamps: outside effects, present only as the steps they trigger.
- JSON parsing and building, metrics and logging: foreign libraries and presentation.
- The floating-point outputs: the doubles of the statistics and of the broadcast imbalance.
- The Kraken adapter beyond its call of applyDelta: it has no sequence logic.
- Prices off the tick, non-positive prices and negative quantities: outside the ladder's stated contract, so preconditions.
- Spans that do not fit 64 bits: such ladders and books are made, but their windows could not be computed, so of them nothing more is claimed.
- The memory model: each lock section and each atomic access is one step.
