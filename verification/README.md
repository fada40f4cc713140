# Verified cores of the trading stack

A Dafny model of the stack's self-contained algorithms, with proofs that hold
for every input, every run or every interleaving.  `dafny verify
dfyconfig.toml` checks everything.

## What is modelled

Protocols are step systems: a `State`, an `Event` type, a `Step` function that
ignores events that are not enabled, and `Exec`, which folds a sequence of
events.  A theorem about `Exec` for an arbitrary sequence is a theorem about
every interleaving.  Objects that the source updates in place are classes whose
methods are proved against the same functions the theorems are about; loops of
the source are loops here.

* **Rate limiter** (`SlotSchedule`, `RateLimiter`, `RateLimiterGuarantees`,
  `RateLimiterProgress`, `TokenBucket`).  `SlotSchedule` says what a bucket promises, without threads:
  callers served one after the other.  `RateLimiter` is the lock-free code: any
  number of calls, each with its clock reading, a plain load that may be stale,
  weak compare-and-swaps that may fail spuriously, and the spin and nap of
  `precise_sleep_us`.  The guarantees show that the second produces exactly the
  schedules of the first.  `TokenBucket` is the loop of one caller on a field,
  with arbitrary rivals between its attempts.
* **Ring buffer** (`RingBufferProtocol`, `RingBufferProgress`, `RingBufferClass`).  Each operation is
  split into load, word-by-word copy and store, and each side reads any value of
  the other's index not older than the last one it saw.  The class is the
  uninterrupted object.
* **Sequencing queues** (`PubSub`, `DbWriter`).  Many producers, one consumer
  that batches (Redis) or swaps the queue out (database).
* **Advantage estimation** (`Gae`), **indicators** (`Indicators`, `Rsi`) and
  **candles** (`CandleBuffer`).
* **Order books** (`OrderBooks`).  Both implementations of the depth protocol,
  the sorted snapshot and the best-price scan.
* **Order path** (`Quantise`, `OrderTracking`).  Rounding, post-only repricing,
  the entry ladder; fill accounting and the open-order circuit breaker.
* **Cross-validation, backfill, position accounting** (`PurgedCv`, `Backfill`,
  `RiskAccounting`).

`Arith` holds the integer facts the others share, `Reals` the products and quotients
of reals, `Wrappers` the option type.

## Assumptions

* Prices, quantities, averages and profits are exact (`real`), or whole quanta
  in `OrderTracking`, where the source's 1e-9 slack then has no effect; `nan`
  results are `None`.  Order book prices are whole multiples of the quote
  precision.
* The microsecond clock does not overflow, all calls read one monotone clock,
  and sleeps are not interrupted.
* The exchange, Redis, the database and the clock are parameters or events: any
  answer, failure or exception may come.
* Each order and book handler, and the look-ahead at the end of `send_order`, is
  one atomic step.
* Backfill times are whole microseconds between the least and the greatest
  datetime; a sum outside raises.
* `std::sort` on distinct prices is represented by insertion; its result is
  pinned down by `OrderBooks.TopUnique`.

## Where the code differs from what it promises

The code is modelled as it is.  Each item names the lemma that shows it.

* A bucket of r requests a second can put r + 1 slots into one second when r
  does not divide a million, because the interval is truncated: 13 orders
  instead of 12, 4 order queries instead of 3
  (`RateLimiterGuarantees.GrantsPerSecond`, `PerSecondBoundAttained`).
* Formatting a quantity twice, as `send_order` does, is not the same as
  formatting it once for quantities up to 0 on the default market: an order for
  nothing becomes an order for 1 (`Quantise.QuantityIdempotent`, `ZeroBecomesOne`).
* The post-only check looks at the price before rounding, so an order within
  half a tick of the opposite quote is rounded onto it and sent
  (`Quantise.PassiveExactlyWhen`); a purchase at 99.996 with the ask at 100.00
  goes out at 100.00 (`SentOntoTheQuote`).  The branch for a failed adjustment,
  on the other hand, is dead (`RepricedPassively`).
* A crossing post-only purchase is sent at price 0 when the ask is below one and
  a half ticks (`Quantise.RepricedPositive`, `RepricedToZero`).
* `NEW` orders never enter `openOrders_` (`OrderTracking.NewAddsNothing`,
  `HeldExactly`); filled ones stay there with quantity 0 (`FilledStays`,
  `FirstOrder`).
* Logged fills add up exactly when reports never go down
  (`OrderTracking.FillsConserved`): reports of 5 and then 3 leave 3 filled and 5
  logged (`FallingReport`).  Without a tracked position every repetition is
  logged in full again (`UntrackedLoggedAgain`).
* `PurgedKFold` yields `n_splits` folds only when `n_splits` divides the number
  of samples, and up to 2 * `n_splits` - 1 otherwise (`PurgedCv.FoldsPartition`,
  `BoundAttained`).
* With chunk size 0 the backfill loop runs forever on full answers
  (`Backfill.NeverStops`, `FullAnswersNoEscape`); it stops in every case exactly
  when the chunk is not 0, there is nothing to do, or an exception, a short
  answer or three empty answers in a row get it out (`StopsExactlyWhen`).
* A negative chunk size makes it walk back to the start of the calendar and end
  in an OverflowError (`WalksBack`); a chunk that reaches beyond year 9999 raises
  on the first turn (`RaisesAtOnce`).
* A short position is closed, or turned into a long, by any partial close
  request (`RiskAccounting.RemainderIsLong`).
* Closing a losing long in k parts counts as k losses in a row where one close
  counts as one, so three parts alone reach the limit of `can_trade`
  (`RiskAccounting.SplitCloseSame`).
* The RSI of flat prices is 100 for the prices and for their mirror image
  (`Rsi.RsiSymmetric`, `FlatIsHundred`).
* The two books part ways when the last mention of a price carries a negative
  quantity (`OrderBooks.BooksAgree`, `NegativeQuantity`).
* `RolloutBuffer.clear` raises an error once returns have been computed, since
  the lists have then been replaced by arrays (`Gae.RolloutBuffer.Clear`).

One branch is dead today: nothing shown marks a position for closure, so
`processSdkOrderUpdate` never logs a completed one
(`OrderTracking.ClosureNeverLogged`).  Entered, it would log profit 0 whenever the
report carries a positive price and quantity, because the entry price has just
been overwritten (`ClosingResult`; ten bought at 1 and sold at 2 in `ClosureOfTen`).

## Model

| member | source | states |
|---|---|---|
| SlotSchedule.Spacing | cpp_exec/exec_bridge.cpp:1069-1094 | slots with d reservations from one to the other are at least d intervals apart |
| SlotSchedule.SlotIsFirstFree | cpp_exec/exec_bridge.cpp:1071-1078 | a slot is the first moment neither before the clock reading nor less than an interval after the slot before it |
| SlotSchedule.WorkConserving | cpp_exec/exec_bridge.cpp:1071-1079 | k callers whose clock readings are at most s leave the bucket at most k intervals past s |
| SlotSchedule.WindowBound | cpp_exec/exec_bridge.cpp:1061-1094 | a half-open window of width W holds at most ceil(W / interval) slots |
| SlotSchedule.PerSecondRoom | cpp_exec/exec_bridge.cpp:1078 | a second has room for exactly r slots when r divides a million and for exactly r + 1 otherwise, for every rate r up to 1000 |
| RateLimiter.HistoryIncreases | cpp_exec/exec_bridge.cpp:1069-1094 | `next_slot_us` is strictly increasing in its modification order |
| RateLimiter.SuccessSawNewest | cpp_exec/exec_bridge.cpp:1084-1091 | a successful compare-and-swap never rests on a stale value: its load saw the newest write (no ABA) |
| RateLimiter.FailureMovesView | cpp_exec/exec_bridge.cpp:1084-1094 | a non-spurious failure shows the caller a strictly newer write, hence a rival's success |
| RateLimiter.StepInv | cpp_exec/exec_bridge.cpp:1061-1135 | every step of any call keeps the invariant: grants and calls name each other, each slot is the maximum of the caller's clock and the value it replaced, failures are bounded by the successes before, waits end no earlier than the slot |
| RateLimiter.ExecInv | cpp_exec/exec_bridge.cpp:1061-1135 | the invariant holds after every run |
| RateLimiterGuarantees.GrantsFollowSchedule | cpp_exec/exec_bridge.cpp:1061-1094 | linearisation: in compare-and-swap order the calls get exactly the slots of the sequential schedule |
| RateLimiterGuarantees.SlotsSpaced | cpp_exec/exec_bridge.cpp:1069-1094 | over every interleaving slots come out strictly in order and at least one interval apart for each reservation between them |
| RateLimiterGuarantees.GrantsPerWindow | cpp_exec/exec_bridge.cpp:1061-1094 | over every interleaving at most ceil(W / interval) slots fall into any window of width W |
| RateLimiterGuarantees.GrantsPerSecond | cpp_exec/exec_bridge.cpp:1054-1094 | at most r slots in any second when r divides a million, at most r + 1 otherwise |
| RateLimiterGuarantees.ConfiguredPerSecond | cpp_exec/exec_bridge.cpp:1054-1058 | the three configured buckets allow at most 13, 4 and 5 slots in any second |
| RateLimiterGuarantees.PerSecondBoundAttained | cpp_exec/exec_bridge.cpp:1054-1094 | for every rate up to 1000 some run really puts that many slots into one second |
| RateLimiterGuarantees.BurstSlots | cpp_exec/exec_bridge.cpp:1069-1094 | n calls beginning at the same instant on an idle bucket get the slots now, now + interval, ..., now + (n-1) * interval |
| RateLimiterGuarantees.NoEarlyRelease | cpp_exec/exec_bridge.cpp:1096-1135 | a call that has returned did so at or after its own slot, which is not before its clock reading |
| RateLimiterGuarantees.ReleaseRate | cpp_exec/exec_bridge.cpp:1061-1135 | at most (t - t0) / interval + 1 calls have returned by time t, t0 being the first slot |
| RateLimiterGuarantees.ContentionBound | cpp_exec/exec_bridge.cpp:1069-1094 | N calls suffer at most N(N-1)/2 non-spurious failures in all |
| RateLimiterGuarantees.SoloCompletes | cpp_exec/exec_bridge.cpp:1069-1094 | from every reachable state a contending call left alone reserves within two attempts, if the first fails on the newest value and the second does not fail spuriously |
| RateLimiterGuarantees.RecordsOnlyGrow | cpp_exec/exec_bridge.cpp:1061-1094 | no later step revises a reservation, a clock reading or the atomic's past |
| RateLimiterGuarantees.BacklogBound | cpp_exec/exec_bridge.cpp:1069-1094 | k further reservations with clock readings at most s, from a bucket not past s, leave it at most k intervals past s |
| RateLimiterGuarantees.LaterCallLaterSlot | cpp_exec/exec_bridge.cpp:1061-1094 | real-time order: a call that begins after another has reserved gets a slot at least one interval later |
| RateLimiterProgress.UndisturbedReserves | cpp_exec/exec_bridge.cpp:1061-1094 | from every reachable state an undisturbed call reserves the later of its clock reading and the bucket's value and moves the bucket one interval past it |
| RateLimiterProgress.LeavesWhenDue | cpp_exec/exec_bridge.cpp:1096-1135 | from every reachable state, with any events of the others in between: a call whose slot is not ahead leaves at once, a waiting one at the first wake after its wait (20 microseconds of spin, then the rest), and no wake before that releases it |
| RateLimiterProgress.LeavesOnTime | cpp_exec/exec_bridge.cpp:1096-1135 | with its wakes delivered when due a call leaves exactly its wait after its departure |
| RateLimiterProgress.OthersLeaveAlone | cpp_exec/exec_bridge.cpp:1061-1135 | no event of another call changes a call; only ticks move the clock |
| RateLimiterProgress.FailuresCounted | cpp_exec/exec_bridge.cpp:1078-1093 | the failures bounded by the contention theorem are exactly the races the call lost in the run |
| TokenBucket.Bucket.CompareExchangeWeak | cpp_exec/exec_bridge.cpp:1084-1087 | stores only over the expected value, may fail spuriously, reports the value found |
| TokenBucket.Bucket.RateLimit | cpp_exec/exec_bridge.cpp:1061-1102 | with arbitrary rivals and spurious failures between its steps the caller retries until its first undisturbed attempt, gets the slot behind all rivals so far, leaves the bucket as the schedule says and waits slot minus clock reading |
| RingBufferProtocol.FullTest | cpp_exec/ring_buffer.hpp:38-42 | on any stale tail the wrapped test for full says exactly that size - 1 items lie behind that tail |
| RingBufferProtocol.EmptyTest | cpp_exec/ring_buffer.hpp:49-52 | on any stale head the wrapped test for empty says exactly that this head shows nothing to read |
| RingBufferProtocol.StepInv | cpp_exec/ring_buffer.hpp:37-56 | every load, word copy and store of either side keeps the invariant |
| RingBufferProtocol.ExecInv | cpp_exec/ring_buffer.hpp:37-56 | the invariant holds after every interleaving |
| RingBufferProtocol.Fifo | cpp_exec/ring_buffer.hpp:37-56 | accepted items = delivered items followed by the buffer's content, never more than size - 1 of them |
| RingBufferProtocol.NoSharedSlot | cpp_exec/ring_buffer.hpp:38-54 | producer and consumer never work on the same slot, and each has seen the store that gave it its slot |
| RingBufferProtocol.NeverTorn | cpp_exec/ring_buffer.hpp:43-53 | every item delivered, and every partial copy, consists of the words of the one item accepted at that position |
| RingBufferProtocol.RefusalsExact | cpp_exec/ring_buffer.hpp:38-52 | an enqueue is refused, or a dequeue comes back empty, exactly when the index value it read says so |
| RingBufferProgress.EnqueueCompletes | cpp_exec/ring_buffer.hpp:37-46 | from every reachable state, whatever the consumer does in between, an enqueue is accepted as the next item exactly when the tail it reads shows fewer than size - 1 items, and otherwise leaves no trace |
| RingBufferProgress.DequeueCompletes | cpp_exec/ring_buffer.hpp:48-56 | from every reachable state, whatever the producer does in between, a dequeue delivers the next accepted item exactly when the head it reads shows one, and otherwise nothing |
| RingBufferProgress.WritesAdvance | cpp_exec/ring_buffer.hpp:43-43 | the copy into the slot completes word by word between any steps of the consumer |
| RingBufferProgress.ReadsAdvance | cpp_exec/ring_buffer.hpp:53-53 | the copy out of the slot completes word by word between any steps of the producer |
| RingBufferClass.RingBuffer.TryEnqueue | cpp_exec/ring_buffer.hpp:37-46 | appends and succeeds exactly when fewer than size - 1 items are held |
| RingBufferClass.RingBuffer.TryDequeue | cpp_exec/ring_buffer.hpp:48-56 | removes the oldest item into the caller's variable, and succeeds exactly when there is one; otherwise the variable keeps its value |
| PubSub.StepInv | data_ingestion/redis_pubsub.hpp:98-156 | publish, collect, pipeline and exec keep sent ++ batch ++ queue = accepted |
| PubSub.ExecInv | data_ingestion/redis_pubsub.hpp:98-156 | the same over every interleaving of publishers and loop |
| PubSub.AcceptedNumbered | data_ingestion/redis_pubsub.hpp:98-105 | messages are numbered 0, 1, 2, ... in lock order |
| PubSub.SentIsGapFreePrefix | data_ingestion/redis_pubsub.hpp:98-156 | nothing is lost, doubled or reordered, the sent stream has no gap from 0, and a pipeline holds at most `batch_size_` messages |
| PubSub.TurnSends | data_ingestion/redis_pubsub.hpp:125-155 | one turn of the loop sends the first min(batch_size, length) queued messages and leaves the rest |
| PubSub.LoopDrains | data_ingestion/redis_pubsub.hpp:121-156 | left alone, the loop sends the whole queue in exactly ceil(length / batch_size) turns of one to `batch_size_` messages each |
| PubSub.RedisPubSub.PublishMessage | data_ingestion/redis_pubsub.hpp:98-105 | numbers the message and puts it at the end of the queue |
| PubSub.RedisPubSub.CollectBatch | data_ingestion/redis_pubsub.hpp:126-138 | moves min(batch_size, length) messages from queue to batch, in order |
| PubSub.RedisPubSub.SendBatch | data_ingestion/redis_pubsub.hpp:139-153 | pipelines the whole batch in order and clears it |
| DbWriter.AttemptsInOrder | data_ingestion/backpack_data_service.cpp:157-233 | attempted ++ local ++ queue = enqueued, for every interleaving of callers and worker |
| DbWriter.CommittedIsSubsequence | data_ingestion/backpack_data_service.cpp:182-233 | the committed operations are a subsequence of the attempted ones |
| DbWriter.StoredInOrder | data_ingestion/backpack_data_service.cpp:157-233 | what reaches the database is a subsequence of what was enqueued: failures leave holes, never disorder |
| DbWriter.RoundDrains | data_ingestion/backpack_data_service.cpp:182-233 | one round of an idle worker empties the queue and attempts all of it in order, each operation with its own fate |
| DbWriter.CommittedAppend | data_ingestion/backpack_data_service.cpp:192-228 | an attempt stores its operation exactly when its transaction commits |
| DbWriter.AsyncDBWriter.EnqueueOperation | data_ingestion/backpack_data_service.cpp:167-173 | appends to the queue |
| DbWriter.AsyncDBWriter.WorkOnce | data_ingestion/backpack_data_service.cpp:182-233 | is one round of the step system: takes the whole queue and logs each operation once, in order, with its own fate |
| Gae.ComputeGae | rl/train.py:42-55 | the in-place backward loop fills the arrays with the recurrence and with recurrence plus value |
| Gae.SolveRecurrence | rl/train.py:45-52 | any such backward recurrence is a weighted sum that stops at episode ends |
| Gae.ClosedForm | rl/train.py:45-52 | the advantage is the sum over k of (gamma * lambda)^(k-t) * delta_k up to the end of the episode |
| Gae.OneStep | rl/train.py:45-52 | at lambda = 0 the advantage is reward plus discounted next value, unless the step is terminal, minus value |
| Gae.Telescopes | rl/train.py:45-54 | at lambda = 1 the return is the discounted reward of the episode plus the discounted bootstrap if it is still open |
| Gae.ReturnsIgnoreValues | rl/train.py:45-54 | so at lambda = 1 returns do not depend on any intermediate value estimate |
| Gae.EpisodeEndCuts | rl/train.py:45-52 | advantages up to a terminal step depend on nothing after it |
| Gae.BufferBootstraps | rl/train.py:87-105 | through the buffer the only bootstrap is `last_value` |
| Gae.RolloutBuffer.Add | rl/train.py:70-85 | appends one transition |
| Gae.RolloutBuffer.ComputeReturnsAndAdvantages | rl/train.py:87-105 | fills advantages and returns of the stored transitions from the recurrence |
| Gae.RolloutBuffer.Clear | rl/train.py:120-129 | empties the transitions; raises, leaving the results, exactly when they have been computed |
| Indicators.Ema | cpp_exec/indicators.hpp:125-136 | the loop computes the average-seeded exponential smoothing, or `nan` for short series and period 0 |
| Indicators.EmaWithinRange | cpp_exec/indicators.hpp:125-136 | the EMA lies between the minimum and the maximum of the series |
| Indicators.EmaSeed | cpp_exec/indicators.hpp:128-130 | the EMA of n prices of period n, times n, is their sum |
| Indicators.EmaMoves | cpp_exec/indicators.hpp:128-134 | n + 1 times the move a further price causes is twice its distance from the EMA: with the seed this determines the EMA |
| Indicators.CalculateEma | cpp_exec/indicators.hpp:211-230 | entry i of the series is the EMA of the first i + 1 prices, 0 before the seed; for period 0 the loop writes before the vector's start |
| Indicators.EmaIsLastOfSeries | cpp_exec/indicators.hpp:125-230 | `EMA::calculate` is the last entry of `MACD::calculateEMA` for the same period |
| Indicators.EmaSeriesLinear | cpp_exec/indicators.hpp:211-230 | the whole EMA series is linear in the prices |
| Indicators.Macd | cpp_exec/indicators.hpp:190-208 | the loops compute the histogram composed of three EMAs; a series shorter than the slow period gives `nan`, otherwise a period 0 leads out of bounds |
| Indicators.HistogramExists | cpp_exec/indicators.hpp:190-208 | the histogram is a number exactly when the series is at least as long as each of the three periods |
| Indicators.HistogramMoves | cpp_exec/indicators.hpp:190-230 | with each price the histogram becomes (g - 1)/(g + 1) of itself plus what the fast EMA gained on the slow one |
| Indicators.HistogramIs | cpp_exec/indicators.hpp:190-208 | the histogram is the line's last entry minus the EMA of the line |
| Indicators.LineGrows | cpp_exec/indicators.hpp:194-200 | each price appends fast EMA minus slow EMA to the line and changes no earlier entry |
| Indicators.HistogramExample | cpp_exec/indicators.hpp:190-230 | prices 1 and 4 with periods 1, 2, 2 give 1/4 |
| Indicators.HistogramLinear | cpp_exec/indicators.hpp:190-230 | the histogram of a*p + b*q is a times that of p plus b times that of q |
| Rsi.Update | cpp_exec/indicators.hpp:164-171 | one turn of the loop is Wilder's blend of each average, in both branches |
| Rsi.FirstAverages | cpp_exec/indicators.hpp:149-160 | the first loop computes the averages of the first upward and downward moves |
| Rsi.RelativeStrength | cpp_exec/indicators.hpp:146-177 | both loops together compute the index of the two smoothed move series, or `nan` |
| Rsi.AveragesSeed | cpp_exec/indicators.hpp:149-160 | the averages start as the mean of the first rises and the mean of the first falls, in plain prices |
| Rsi.AveragesMove | cpp_exec/indicators.hpp:163-172 | each further price moves them one period-th of the way to its rise and its fall, in plain prices |
| Rsi.RsiIsShare | cpp_exec/indicators.hpp:174-176 | the index is 100 times the gains' share of gains and losses, and 100 if there are neither |
| Rsi.RsiExtremes | cpp_exec/indicators.hpp:146-177 | the index is 100 exactly when no remembered price falls below the one before, and 0 exactly when none rises and some falls |
| Rsi.RsiMonotone | cpp_exec/indicators.hpp:146-177 | a higher last price never lowers the index, and raises it unless it was 100 already or stays 0 |
| Rsi.RsiRange | cpp_exec/indicators.hpp:146-177 | the index lies in [0, 100] |
| Rsi.RsiScaleInvariant | cpp_exec/indicators.hpp:146-177 | multiplying all prices by a positive factor changes nothing |
| Rsi.WilderZero | cpp_exec/indicators.hpp:149-171 | a smoothed average is zero exactly when all moves it remembers are zero |
| Rsi.RsiSymmetric | cpp_exec/indicators.hpp:146-177 | RSI(p) + RSI(-p) = 100 exactly when the remembered prices are not flat |
| Rsi.FlatIsHundred | cpp_exec/indicators.hpp:146-177 | on flat prices the index is 100, for the prices and for their mirror image |
| CandleBuffer.AcceptShape | cpp_exec/indicators.hpp:57-114 | one event keeps timestamps strictly increasing, at most 1000 candles and every candle sound |
| CandleBuffer.AcceptVolume | cpp_exec/indicators.hpp:57-114 | retained plus evicted volume grows by exactly what the event brought in |
| CandleBuffer.DequesStayOk | cpp_exec/indicators.hpp:57-114 | over every mix of trades and well-formed klines each deque has strictly increasing timestamps, at most 1000 candles, all sound |
| CandleBuffer.DequeIsTail | cpp_exec/indicators.hpp:57-114 | each deque holds exactly the last 1000 candles of the unbounded history of its key, or all of them if there are fewer |
| CandleBuffer.HistoryVolume | cpp_exec/indicators.hpp:57-114 | the history's volume is that of all trades and of the klines newer than every earlier event of the key, and its newest candle carries the latest timestamp of all events |
| CandleBuffer.VolumeConserved | cpp_exec/indicators.hpp:57-114 | volume still held plus volume dropped is what the events supplied |
| CandleBuffer.NewestSummarises | cpp_exec/indicators.hpp:57-65 | fed by trades at positive prices, the newest candle is opening, highest, lowest and closing price and volume of exactly the trades since the last newer timestamp |
| CandleBuffer.PastUntouched | cpp_exec/indicators.hpp:57-114 | a candle is never changed once a newer one has begun |
| CandleBuffer.CloseIsLastPrice | cpp_exec/indicators.hpp:57-65 | after any trade the newest candle closes at its price |
| CandleBuffer.KlineEffect | cpp_exec/indicators.hpp:67-81 | a kline newer than every earlier event of its key is kept as it is, any other leaves no trace |
| CandleBuffer.KeysDiffer | cpp_exec/indicators.hpp:97-99 | keys of different symbols or intervals differ if intervals have no underscore |
| CandleBuffer.KeysSpelled | cpp_exec/indicators.hpp:97-103 | trades go to the symbol's one-minute deque, klines to the deque of their interval |
| CandleBuffer.OHLCVBuffer.GetOrCreateCandle | cpp_exec/indicators.hpp:101-114 | adds an empty candle behind an older newest one, evicting the oldest from a full deque |
| CandleBuffer.OHLCVBuffer.UpdateFromTrade | cpp_exec/indicators.hpp:57-65 | folds the trade into the "1m" deque and touches no other |
| CandleBuffer.OHLCVBuffer.UpdateFromKline | cpp_exec/indicators.hpp:67-81 | appends a strictly newer candle, evicting the oldest, and ignores any other |
| CandleBuffer.OHLCVBuffer.GetClosePrices | cpp_exec/indicators.hpp:83-94 | the closes of the deque in order, none for an unknown key |
| OrderBooks.LastMentionWins | cpp_exec/redis_client.cpp:43-72 | a price shows the quantity of its last mention, unless that one erases it; prices not mentioned keep theirs |
| OrderBooks.StreamIsFlat | cpp_exec/redis_client.cpp:43-72 | a stream of messages acts as the concatenation of its levels, side by side |
| OrderBooks.RegroupingIrrelevant | cpp_exec/redis_client.cpp:43-72 | cutting the same levels into other messages changes nothing |
| OrderBooks.SidesAgree | data_ingestion/backpack_data_service.cpp:411-437 | on one side the two rules agree exactly when no last mention is negative |
| OrderBooks.BooksAgree | data_ingestion/backpack_data_service.cpp:411-439 | the two books agree after a stream exactly when no price's last mention carries a negative quantity |
| OrderBooks.NegativeQuantity | data_ingestion/backpack_data_service.cpp:411-439 | a single bid of quantity -1 stays in one book and never enters the other |
| OrderBooks.TopUnique | cpp_exec/redis_client.cpp:113-128 | the definition of a top-n list admits only one list |
| OrderBooks.TopInPrices | cpp_exec/redis_client.cpp:119-127 | bids fall, asks rise, and what is left out lies below every bid and above every ask shown |
| OrderBooks.CopyLevels | cpp_exec/redis_client.cpp:117-118 | the copied vector lists each level of the side once |
| OrderBooks.SortedListIsTop | cpp_exec/redis_client.cpp:117-127 | sorting that vector and cutting it gives the top-n list |
| OrderBooks.TopLevels | cpp_exec/redis_client.cpp:117-128 | one side of the snapshot is strictly sorted, of the right length, and everything left out is worse than everything in it |
| OrderBooks.BestPrice | cpp_exec/redis_client.cpp:78-82 | the scan finds the best price in whatever order the map iterates |
| OrderBooks.HeadIsBest | cpp_exec/redis_client.cpp:78-128 | for depth at least 1 the snapshot's head is the level the scan selects |
| OrderBooks.OrderBook.ApplyUpdate | cpp_exec/redis_client.cpp:43-82 | both sides become what the message says; the quote sent is the best bid and ask of the new book, none when a side is empty |
| OrderBooks.OrderBook.PublishL1 | cpp_exec/redis_client.cpp:74-111 | best bid and ask with their quantities, none when a side is empty |
| OrderBooks.OrderBook.Snapshot | cpp_exec/redis_client.cpp:113-129 | the top `depth` levels of both sides |
| OrderBooks.OrderBookCache.Update | data_ingestion/backpack_data_service.cpp:411-439 | both sides become what the message says, erasing on quantities up to 0; `last_update_id` follows the message if it has one |
| Quantise.GridNear | cpp_exec/exec_bridge.cpp:2625-2627 | a rounded price is at most half a tick away |
| Quantise.GridNearest | cpp_exec/exec_bridge.cpp:2625-2627 | and no grid point is nearer |
| Quantise.RoundHalves | cpp_exec/exec_bridge.cpp:1647-1647 | halves are rounded away from zero on both sides |
| Quantise.ConfiguredMarkets | cpp_exec/exec_bridge.cpp:227-238 | the tick and step sizes of the two markets |
| Quantise.PositiveQuantity | cpp_exec/exec_bridge.cpp:1645-1661 | a positive quantity becomes the nearest number of steps, but at least one |
| Quantise.OtherQuantity | cpp_exec/exec_bridge.cpp:1645-1661 | any other quantity becomes the minimum |
| Quantise.QuantityMonotone | cpp_exec/exec_bridge.cpp:1645-1661 | asking for more never orders less |
| Quantise.QuantityIdempotent | cpp_exec/exec_bridge.cpp:1645-1668 | formatting twice is formatting once exactly for positive quantities or when minimum and step coincide |
| Quantise.ZeroBecomesOne | cpp_exec/exec_bridge.cpp:227-238 | on the default market an order for 0 formatted twice is an order for 1; on WIF a positive quantity never falls below 0.01 |
| Quantise.RepricedPassively | cpp_exec/exec_bridge.cpp:715-755 | a crossing post-only order is always repriced onto the grid at least half a tick inside the opposite quote; the failure branch is unreachable |
| Quantise.PostOnlyNear | cpp_exec/exec_bridge.cpp:715-755 | the price sent is within half a tick of one tick inside the opposite quote if repriced, of the request if not |
| Quantise.RepricedPositive | cpp_exec/exec_bridge.cpp:735-753 | a repriced purchase keeps a positive price exactly when the ask is at least one and a half ticks; a repriced sale always does |
| Quantise.RepricedToZero | cpp_exec/exec_bridge.cpp:735-753 | with the ask at one tick a crossing purchase is sent at price 0 |
| Quantise.PassiveExactlyWhen | cpp_exec/exec_bridge.cpp:709-755 | for any quotes the price sent is passive exactly when the order was repriced, or a purchase lies more than half a tick below the first grid point not below the ask, or a sale at least half a tick above the last grid point not above the bid |
| Quantise.SentOntoTheQuote | cpp_exec/exec_bridge.cpp:709-755 | with the ask at 100.00 a post-only purchase at 99.996 is sent at 100.00 |
| Quantise.HalfATickIsEnoughToSell | cpp_exec/exec_bridge.cpp:709-755 | with the bid at 99.99 a post-only sale at 99.995 goes out passively at 100.00 |
| Quantise.LevelPassive | cpp_exec/exec_bridge.cpp:1687-1696 | every ladder level is on the grid and strictly behind the near quote |
| Quantise.LevelDistance | cpp_exec/exec_bridge.cpp:1687-1692 | a level lies its number of ticks behind the near quote, up to half a tick |
| Quantise.LevelOnGrid | cpp_exec/exec_bridge.cpp:1687-1692 | and exactly there if the quote is on the grid |
| Quantise.LevelsOneTickApart | cpp_exec/exec_bridge.cpp:1687-1696 | neighbouring levels are exactly one tick apart if the lower one can be placed; deeper levels are never nearer the market |
| Quantise.AcceptedAtMost | cpp_exec/exec_bridge.cpp:1683-1716 | an attempt accepts no more orders than it submits, and submits no more than it has levels |
| Quantise.LadderSound | cpp_exec/exec_bridge.cpp:1683-1716 | every order an attempt submits has a positive price on the grid strictly behind the near quote and the ladder's quantity, and each is exactly one tick deeper than the one before |
| Quantise.LadderOnGrid | cpp_exec/exec_bridge.cpp:1679-1716 | from a quote q ticks up the grid, attempt a submits purchases at q - 1 - 2a, q - 2 - 2a, ... ticks while positive, and sales at all of q + 1 + 2a, q + 2 + 2a, ... |
| Quantise.SubmittedExactly | cpp_exec/exec_bridge.cpp:1685-1707 | exactly the levels with a positive price are submitted, in order of level |
| Quantise.AcceptedExactly | cpp_exec/exec_bridge.cpp:1708-1713 | exactly the non-empty answers to them are kept, in order of level |
| Quantise.TryLadder | cpp_exec/exec_bridge.cpp:1679-1716 | one attempt submits exactly the levels with a positive price in order, keeps exactly the non-empty ids among the answers in order, none if and only if every answer was empty, and remembers the last price |
| Quantise.NeverNothing | cpp_exec/exec_bridge.cpp:1674-1682 | the quantity per level is positive, so the guard against an empty ladder never fires |
| Quantise.PlaceLadder | cpp_exec/exec_bridge.cpp:1671-1743 | submits sound ladders of the twice formatted quantity, attempt by attempt, until one order is answered by an id or three attempts were all refused; keeps exactly the ids of the last attempt, at most three, none of them empty, and the price of its deepest order |
| OrderTracking.LoggedExactly | cpp_exec/exec_bridge.cpp:2335-2435 | over any run the fill quantity logged for a tracked model is the last report plus everything by which reports fell back |
| OrderTracking.FillsConserved | cpp_exec/exec_bridge.cpp:2335-2435 | logged fills add up to the filled quantity exactly when reports never go down |
| OrderTracking.FallingReport | cpp_exec/exec_bridge.cpp:2362-2435 | reports of 5 and then 3 leave 3 filled and 5 logged |
| OrderTracking.DuplicateIsSilent | cpp_exec/exec_bridge.cpp:2335-2502 | a repeated fill report logs nothing and moves no position |
| OrderTracking.FillEntry | cpp_exec/exec_bridge.cpp:2340-2408 | an update logs one fill exactly when it is a fill report of a named order showing more executed than known: how much more, of which order, of how much in all, and whether complete |
| OrderTracking.PositionExactly | cpp_exec/exec_bridge.cpp:2412-2434 | over any run a tracked position shows the executed quantity of the last report that called it filled and the last reported price, and otherwise what it showed before |
| OrderTracking.UntrackedLoggedAgain | cpp_exec/exec_bridge.cpp:2340-2406 | without a tracked position a repeated report is logged in full again |
| OrderTracking.ClosingResult | cpp_exec/exec_bridge.cpp:2412-2470 | what the branch for a completed closure would log: profit 0 when price and quantity are positive; the real profit exactly when the entry price was not overwritten or equals the exit price |
| OrderTracking.ClosureNeverLogged | cpp_exec/exec_bridge.cpp:2436-2465 | from a state without a position marked for closure no run ever marks one or logs a completed closure |
| OrderTracking.ClosureOfTen | cpp_exec/exec_bridge.cpp:2412-2470 | ten bought at 1 and sold at 2 would be logged with profit 0 instead of 10 |
| OrderTracking.StepBound | cpp_exec/exec_bridge.cpp:2265-2515 | one update keeps the breaker's bound, which rises by one only where a bulk cancel is attempted and fails; after an accepted one nothing is held |
| OrderTracking.BreakerHolds | cpp_exec/exec_bridge.cpp:2053-2135 | over every run of updates and placed orders (lines 880-895) fewer than 150 orders are held, plus one for each cancel an update demanded and the exchange refused since the last accepted one, only of the trading symbol and each under its own id |
| OrderTracking.NeverFull | cpp_exec/exec_bridge.cpp:2053-2135 | 150 orders are never held unless the exchange refuses a cancel, and each refusal allows one order more |
| OrderTracking.HandleOpen | cpp_exec/exec_bridge.cpp:880-895 | what one event leaves open: an accepted sweep nothing, any other placed order what was there, an update its effect |
| OrderTracking.SentSweeps | cpp_exec/exec_bridge.cpp:880-895 | after any run an accepted order with 149 or more held empties the book, with fewer it changes nothing, if the exchange agrees to the cancel |
| OrderTracking.StepOpen | cpp_exec/exec_bridge.cpp:2265-2515 | what one update leaves open, for every status: a fill sets its order, a cancel or rejection removes it, an accepted bulk cancel removes all |
| OrderTracking.HeldExactly | cpp_exec/exec_bridge.cpp:2265-2515 | over every run of updates and placed orders (lines 880-895) an order is held exactly from its first fill report until it is cancelled, rejected or swept away by either breaker, and shows quantity minus executed of its last fill report |
| OrderTracking.HeldShows | cpp_exec/exec_bridge.cpp:2478-2502 | a held order shows side, price, open quantity and client id of its last fill report, field by field |
| OrderTracking.FilledStays | cpp_exec/exec_bridge.cpp:2478-2505 | after any run a completely filled order stays with quantity 0 exactly when its update does not sweep the book |
| OrderTracking.FirstOrder | cpp_exec/exec_bridge.cpp:2299-2505 | the first order of a session is not held when announced, and is held with quantity 0 when filled |
| OrderTracking.NewAddsNothing | cpp_exec/exec_bridge.cpp:2299-2334 | an announcement adds no order |
| OrderTracking.ExecutionClient.CancelAllOrdersForSymbol | cpp_exec/exec_bridge.cpp:2053-2093 | after an accepted cancel no order of the symbol is held and all others are; otherwise nothing changes |
| OrderTracking.ExecutionClient.EnforceOpenOrderLimit | cpp_exec/exec_bridge.cpp:2096-2135 | counts the symbol's orders and cancels them all from 150 on |
| OrderTracking.ExecutionClient.CountOpenOrders | cpp_exec/exec_bridge.cpp:2109-2117 | the loop counts the orders held for a symbol |
| OrderTracking.ExecutionClient.PredictBreaker | cpp_exec/exec_bridge.cpp:880-895 | counts the symbol's orders plus the new one and cancels them all from 150 on |
| OrderTracking.ExecutionClient.RecordFill | cpp_exec/exec_bridge.cpp:2335-2475 | logs the newly filled quantity if positive, moves the tracked position and its entry price to the reported ones, and logs and ends a completed closure |
| OrderTracking.ExecutionClient.PlaceOpenOrder | cpp_exec/exec_bridge.cpp:2478-2502 | adds the order or refreshes the one held under its id |
| OrderTracking.ExecutionClient.ProcessSdkOrderUpdate | cpp_exec/exec_bridge.cpp:2265-2515 | the object follows the step function the theorems are about, for every status |
| PurgedCv.CountRange | utils/purged_cv.py:17-18 | between k and 2k - 1 pieces, and k of them exactly when k divides n |
| PurgedCv.FoldCountFrom | utils/purged_cv.py:18-20 | the number of folds is the number of steps `range` makes |
| PurgedCv.TestsCover | utils/purged_cv.py:20-23 | the test folds from any start are the samples from there on, in order |
| PurgedCv.FoldsPartition | utils/purged_cv.py:13-31 | the split succeeds exactly for n >= n_splits; then the test folds partition 0..n-1 in order into n_splits to 2 * n_splits - 1 pieces |
| PurgedCv.BoundAttained | utils/purged_cv.py:13-31 | 2k - 1 samples split k ways really give 2k - 1 folds |
| PurgedCv.FoldPurged | utils/purged_cv.py:22-31 | one fold trains on exactly the samples further than the window from its test samples |
| PurgedCv.TrainingPurged | utils/purged_cv.py:13-31 | so does every fold of a split, in ascending order without repetition |
| Backfill.StepDescends | scripts/backfill_klines.py:236-263 | every outcome uses up potential and keeps the chunk from shrinking below its floor |
| Backfill.PotentialFalls | scripts/backfill_klines.py:236-263 | over n turns the potential falls by at least n while the loop runs |
| Backfill.StopsInTime | scripts/backfill_klines.py:236-267 | with a positive chunk the loop makes no further turn after 3 * ceil((end - start) / min(chunk, 1 h)) turns whatever happens |
| Backfill.NeverStops | scripts/backfill_klines.py:236-263 | with chunk 0 it never stops while no request throws, no answer is short and no three answers in a row are empty |
| Backfill.FullAnswersNoEscape | scripts/backfill_klines.py:243-252 | full answers are such an input |
| Backfill.WalksBack | scripts/backfill_klines.py:239-263 | with a negative chunk and such an input it moves back one chunk a turn and raises at the last one that fits before the least datetime |
| Backfill.NeverRaises | scripts/backfill_klines.py:239-263 | with a positive chunk nothing is raised if the larger of chunk and one hour still fits behind the end |
| Backfill.RaisesAtOnce | scripts/backfill_klines.py:239-241 | the first turn raises exactly when the end of the first chunk is no datetime |
| Backfill.StopsExactlyWhen | scripts/backfill_klines.py:236-267 | for every chunk the loop stops exactly when the chunk is not 0, there is nothing to do, or some answer is short, some request throws or three answers in a row are empty |
| Backfill.RequestsTile | scripts/backfill_klines.py:239-258 | the requests answered tile [start, current); with a positive chunk each goes forward within the range |
| Backfill.FullSpeed | scripts/backfill_klines.py:239-258 | with full answers n turns cover exactly n chunks, cut off at the end |
| Backfill.TurnEffect | scripts/backfill_klines.py:241-263 | what data, empty answers and exceptions do to position, chunk and error count, in plain numbers |
| Backfill.ShrinkHalves | scripts/backfill_klines.py:251-262 | a chunk is halved to the nearest microsecond, never below one hour |
| Backfill.BackfillSymbol | scripts/backfill_klines.py:227-267 | on every input on which it stops, the loop takes at most that many turns for a positive chunk, the requests answered tile [start, current) without gap or overlap, and it exits at the end, after three consecutive errors, or exactly by the OverflowError of a chunk outside the datetime range |
| RiskAccounting.MetricsFollowLedger | strategy/risk_manager.py:94-125 | over any run equity is the start plus all realised results, the peak is the highest equity reached, the streak is the losses since the last reset or other close |
| RiskAccounting.DayStart | strategy/risk_manager.py:110-153 | the daily figure adds up what was realised since the last reset |
| RiskAccounting.Accounts | strategy/risk_manager.py:62-153 | all four at once over every run |
| RiskAccounting.OpenAndClose | strategy/risk_manager.py:62-133 | from any state a position opens exactly up to a value of 10000, stores what was asked with the profit at the current price, and closing it changes equity and daily figure by size times price difference |
| RiskAccounting.FirstProfit | strategy/risk_manager.py:62-133 | buying 10 at 100 and selling at 103 takes a new manager to 10030 |
| RiskAccounting.SplitCloseSame | strategy/risk_manager.py:94-133 | closing a long in any positive parts at one price, less than, as much as or more than the position, brings the same equity, daily figure, peak and positions as closing their sum at once; below the entry price it lengthens the loss streak by the number of parts that closed something instead of 1 |
| RiskAccounting.CutDown | strategy/risk_manager.py:106-111 | a request for at least the position is a request for all of it |
| RiskAccounting.CloseStreak | strategy/risk_manager.py:112-125 | closing part or all of a long lengthens the streak by one exactly below the entry price, and ends it otherwise |
| RiskAccounting.RemainderIsLong | strategy/risk_manager.py:107-133 | what a partial close leaves is always a positive size, and when it leaves anything |
| RiskAccounting.LongsStayLong | strategy/risk_manager.py:62-133 | if only longs are opened only longs are held |
| RiskAccounting.RiskManager.CanTrade | strategy/risk_manager.py:42-60 | trading is allowed exactly when none of the three limits is hit |
| RiskAccounting.RiskManager.UpdatePosition | strategy/risk_manager.py:62-92 | refuses exactly above the value limit, changing nothing; otherwise replaces that symbol's position only |
| RiskAccounting.RiskManager.ClosePosition | strategy/risk_manager.py:94-137 | the object follows the step function the theorems are about |
| RiskAccounting.RiskManager.ResetDailyMetrics | strategy/risk_manager.py:150-153 | clears the daily figure and the streak, keeps equity, peak and positions |

## Left out

- Network, Redis, PostgreSQL, signing, JSON, logging, UUIDs, Python bindings, model training, plotting and start scripts: input and output or foreign libraries.
- The mutexes of the order and book handlers: `processSdkOrderUpdate`, `onTick` and `OrderBook::apply_update` call functions that lock what they already hold; each handler is one atomic step here.
- Floating-point rounding, overflow of the microsecond clock, interrupted sleeps, infinities and NaN inputs.
- The busy loop of `precise_sleep_us`: one step that is enabled once enough time has passed.
- The C++ memory model beyond stale monotone reads: that the copy of a slot and the index store around it are ordered is the release/acquire pairing `RingBufferProtocol.NoSharedSlot` identifies, taken as given.
- Item types of the ring buffer whose copy does more than copy words, and the buffer's `mmap`.
- `precise_sleep_us` outside `rate_limit`, the retry and back-off logic and the 429 handling.
- PubSub.LoopDrains: assumes that `pipe.exec` does not throw, which would end the loop's thread; messages still queued when `running_` clears are not sent, and nothing here says they are.
- DbWriter.StoredInOrder: says nothing about operations still queued at shutdown; the connection pool and its bound are not modelled.
- Priorities, compression, callbacks and subscribers of `RedisPubSub`, and the send time stamp.
- States, actions, log-probabilities and `get` with its normalisation in `RolloutBuffer`; an integer reward array, into which `compute_gae` would truncate.
- Shift invariance of the MACD: false, because the series starts with zeros.
- Gaps within the candle deque and the bucketing of trades into minutes: the caller chooses the timestamps.
- Malformed depth levels and level arrays shorter than two, which the source treats differently in the two books; equal prices written with different digits.
- The write interval of `OrderBookCache` and the first-level shortcut of `handle_message`, which does not publish the best price.
- The decimal digits of `format_price_string` and `format_quantity_string`: the number is modelled, not its text.
- The stop-loss order and the position record after a ladder entry; reduce-only and conditional orders; the market side of `send_order`.
- OrderTracking.ExecutionClient.RecordFill: leaves out `trade_id`, time stamps, prices and quotes in the events it logs; the closure type is not told apart.
- The logging of new, cancelled and rejected orders in `processSdkOrderUpdate`; an unknown side counts as a bid.
- `sweeperThread`, which nothing starts, and the direct submissions of the ladder, which do not look ahead.
- Positions coming, going or being replaced between updates: `OrderTracking.LoggedExactly` is about a model that is tracked when the run starts.
- `open_positions_` and the stop logic of `onTick`: nothing fills that vector.
- A negative purge window and the shuffle arguments of `PurgedKFold`.
- The pauses of `backfill_symbol`, the parsing and saving of klines, and `backfill_parallel`.
- Limits other than the defaults of `RiskLimits`, `max_leverage` (which the source never reads), `get_position` and `get_total_exposure`.
- `to_ms` and the sequence tracking of `ws_client.py`.
