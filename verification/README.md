# Emporos: a verified model of its backtester, change stream, command coordinator and limiter

Emporos backtests and runs trading strategies and shows them in a dashboard. This project models the
parts where a mistake would be silent, and proves what they promise.

**The simulated exchange and the trading day.** `Exchange` describes the broker as a ledger of every
order ever placed, scanned from the start for each bar. `Broker` is the broker as written: order
objects changed in place and two hand-kept indexes; every method is proved to do what the scan does.
`Ledger` and `Portfolio` do the same for the book: positions, average cost, round trips, equity.
`Simulation` describes a whole run as a value, with the strategy as an adversary that may answer any
callback with any signals, even in the middle of settling; an exception raised on the way ends the run
there. `Safety`, `SessionSafety`, `RunSafety`, `Lookahead`, `ExitOnly` and `Netting` prove what every
step of every run keeps, stopped or not, and why a run may stop. `BarTrades` and `ClosingTrades` say, by
the bar, the orders and the position alone, what a bar trades and arms and which trades close a position;
`Valuation` says the same of the equity curve, by the fills and the closes alone. `Pricing` is the pricing
a run is given, with exactly the signals it can make an order of, and `StoppedRuns` holds a run for every
way to stop. `Flow`, `Session` and `MultiReplay` are the order flow, settler, session and the two replays as
objects, each method tied to the step of `Simulation` it performs, exceptions included. `Feed` is the
chunked market-data feed, and `Engine` builds all of it and runs it, from the bar store to the report.

**The change stream.** `Sse` is the dashboard's decoder, `SsePrinting` the server's printed frames and
the proof that decoding undoes printing for every way the text can be cut; `SseFields` says what it makes
of any frames at all, with either line end. `ChangeStream` is the
poll-and-resume protocol over changing stores, lost connections and reconnects, each poll three reads
between which the store may change; `PageLimits` says what the store alone decides about every answer a
database may give; `EventStream` is the endpoint and the resume point. The frame format is that of the
HTML Living Standard, sections 9.2.4 to 9.2.6, restricted as the decoder restricts it to LF and CR LF.

**The rest.** `Commands` is the restart-safe command coordinator with page reloads and failing browser
storage. `RateLimit` is the multi-window sliding limiter with real-valued time. `WalkForward`,
`WalkForwardRun` and `Batch` plan and run walk-forward windows serially or in a pool.

## What the code turned out not to promise

Several things a reader of the sources would expect hold only under a condition. Each failure is a
concrete run in a lemma, each condition a lemma that says exactly when the thing holds.

- A strategy's signal can stop the whole run: `Signal` does not compare a stop's limit with its trigger,
  `SimOrderRequest` does (`src/emporos/backtest/orders.py:47-62`), and nothing catches the error.
  Run: `StoppedRuns.AnUnbuildableSignalStopsTheRun`. Condition: `Safety.SignalFate`, `Safety.AnswersStopIff`
  and, for the pricing in use, `Pricing.Marketable.BuildableIff`.
- The session's own exit can stop it too, when its price rounds to nothing or the bar closes at nothing.
  Runs: `StoppedRuns.AnUnbuildableExitStopsTheRun`, `StoppedRuns.ACloseOfNothingStopsTheRun`. Condition:
  `SessionSafety.ExitFate`.
- A day ends flat unless a position's forced price rounds to zero (`src/emporos/backtest/square_off.py:96`
  rounds down, `src/emporos/backtest/orders.py:43` refuses zero). Run:
  `StoppedRuns.AnUnclosablePositionStopsTheRun`. Condition: `SessionSafety.LongClosable`,
  `SessionSafety.ShortClosable`, `SessionSafety.SessionEndsFlat`.
- "Nothing missed" (`src/emporos/api/app.py:226-229`) fails when one kind has more changes than fit a page
  (`ChangeStream.OverflowLosesAChange`), and when a change appears between the reads of one poll
  (`ChangeStream.AChangeBetweenReadsIsLost`). Condition for one poll: `ChangeStream.LostIff`; for every
  answer of a quiet store: `PageLimits.EveryAnswerServesIff`.
- A poll can stand still for ever on a page full of changes of one instant (`ChangeStream.TiesCanStall`).
  Condition: `PageLimits.CanStandStillIff`.
- Signing in again while a command request is in flight (`dashboard/src/lib/controller.ts:115-118`) starts
  a second request and can erase the record of an unsettled command (`Commands.RestoreInFlightDoubles`,
  `Commands.RestoreInFlightForgets`). Condition: `Commands.RestoreIsSafeIff`.
- Abandoning a command forgets it if the first storage removal works and the second fails
  (`Commands.HalfDiscardForgets`). Condition: `Commands.DiscardIsSafeIff`.
- A refusal whose storage removal fails leaves the coordinator busy until a reload
  (`Commands.RefusalCanLeaveItBusy`, `Commands.StuckUntilReload`). Condition:
  `Commands.BusyWithoutRequestIff`.

## Model

| member | source | states |
|---|---|---|
| Market.TimeframesNest | src/emporos/domain/candles.py:26-32 | a minute is sixty seconds, the other frames are whole multiples of it, and a daily bar closes at its own time the next day |
| Market.DaysBeginAtMidnight | src/emporos/core/clock.py:15 | days begin at midnight five and a half hours east, and times of day count from there |
| FillModel.BarFillModel.FillPriceIsHonest | src/emporos/backtest/fill_model.py:72-88 | for a bar that does not open below zero, slippage and rounding never make a price better than its open |
| FillModel.BarFillModel.BuyPays | src/emporos/backtest/fill_model.py:72-88 | a buy pays its limit, or under slippage the better of limit and open raised by the basis points to the next paisa, if that is below its limit |
| FillModel.BarFillModel.SellGets | src/emporos/backtest/fill_model.py:72-88 | a sell gets its limit, or the better of limit and open lowered to the paisa below, if that is above its limit |
| Exchange.MatchWithinLimits | src/emporos/backtest/broker.py:121-136 | whatever a bar matches, it matches within the order's limit, whatever the crossing and slippage policy |
| FillModel.CapacityWithinVolume | src/emporos/backtest/fill_model.py:97-104 | a bar's capacity is its share of the volume in whole shares, nothing for a partial bar; never negative, never more than its volume |
| Exchange.RestingExactly | src/emporos/backtest/broker.py:84-88 | the resting list is exactly the open orders, each once, in acceptance order |
| Exchange.SubmitsIff | src/emporos/backtest/broker.py:91-104 | a request is taken, accepted or refused, exactly when no order has had its tag, and one event says which |
| Exchange.CancelsIff | src/emporos/backtest/broker.py:106-112 | an order is cancelled exactly when it exists and is still working, whole or in part, with the error it deserves otherwise |
| Exchange.MatchSkips | src/emporos/backtest/broker.py:162-163 | orders resting elsewhere do not change what a bar does, so an index may leave them out |
| Exchange.MatchFrame | src/emporos/backtest/broker.py:121-136 | a bar only touches open orders of its instrument and never their request, acceptance or arming |
| Exchange.OneAllocation | src/emporos/backtest/broker.py:129-135 | one order gets the smaller of what it wants and what is left, and is FILLED exactly when complete |
| Exchange.CapacityLeft | src/emporos/backtest/broker.py:121-136 | after any number of orders the bar has given away exactly the smaller of its capacity and their demand; no order overfills |
| Exchange.LiquidityIsGreedy | src/emporos/backtest/broker.py:121-136 | each order gets exactly what it wants of what the orders before it left |
| Exchange.FirstComeFirstServed | src/emporos/backtest/broker.py:121-136 | a later order fills only if every earlier eligible crossing order is now complete |
| BarTrades.BarTradesExactly | src/emporos/backtest/broker.py:121-136 | in any run the next bar trades exactly the orders resting since before it opened, armed by then, whose limit it traded through (or reached, by the gentler rule), each as much as it wants of what the orders before it left of the bar's share of volume |
| BarTrades.BarArmsExactly | src/emporos/backtest/broker.py:172-183 | in any run the next bar arms exactly the resting unarmed stops accepted before it opened whose trigger it reached, from its close on |
| BarTrades.BarTradesAt | src/emporos/backtest/broker.py:185-199 | every event of a bar is one trade, now, on the order's own terms, at its limit or its slipped price, numbered after the trades before it |
| Exchange.ExpireLeavesNoneResting | src/emporos/backtest/broker.py:138-145 | after expiry no order rests in any instrument |
| Exchange.ExpiryReports | src/emporos/backtest/broker.py:138-145 | expiry reports one cancellation of each order that was still working, oldest first |
| Broker.TracksAccepted | src/emporos/backtest/broker.py:91-104 | accepting an order keeps both indexes equal to the open orders |
| Broker.TracksClosed | src/emporos/backtest/broker.py:165-170 | closing an order keeps both indexes equal to the open orders |
| Broker.NoneBetween | src/emporos/backtest/broker.py:162-163 | between two neighbours of an index no order of the ledger rests |
| Broker.SimulatedBroker.SubmitOrder | src/emporos/backtest/broker.py:91-104 | accept, refuse or raise on a reused tag; indexes stay right; nothing changes on an error |
| Broker.SimulatedBroker.CancelOrder | src/emporos/backtest/broker.py:106-112 | cancels an open order, raises on an unknown or closed one and then changes nothing |
| Broker.SimulatedBroker.FillOrder | src/emporos/backtest/broker.py:185-199 | books a fill, closes a complete order, numbers the fill, keeps the indexes right |
| Broker.SimulatedBroker.SquareOffPosition | src/emporos/backtest/broker.py:147-160 | records and fills the broker's own trade at once, or raises on an unbuildable request |
| Broker.SimulatedBroker.ExpireOpenOrders | src/emporos/backtest/broker.py:138-145 | walking the open index gives the events and state of a scan of every order |
| Broker.SimulatedBroker.StillWaitingForTrigger | src/emporos/backtest/broker.py:172-183 | a stop arms on the bar that reaches it and stays out of reach of that bar |
| Broker.SimulatedBroker.MatchOrder | src/emporos/backtest/broker.py:125-135 | one turn of the matching loop is one step of the scan |
| Broker.SimulatedBroker.MatchBar | src/emporos/backtest/broker.py:121-136 | walking the instrument's index while it shrinks gives the events and state of scanning every order ever placed |
| Clock.BarClock.Set | src/emporos/backtest/clock.py:37-45 | moves forward or stands still; going back is refused and changes nothing |
| Clock.BarClock.SyncTo | src/emporos/strategies/runner.py:66-68 | the clock ends at the later of now and the event, and is never refused |
| Ledger.AddingKeepsCost | src/emporos/broker/paper/account.py:91-94 | adding at an average keeps the total cost and books no profit |
| Ledger.ClosingBooksProfit | src/emporos/broker/paper/account.py:95-106 | closing books (price - average) x closed; the rest keeps its cost and a flip restarts at the fill price |
| Ledger.FillKeepsTrip | src/emporos/backtest/portfolio.py:151-195 | a round trip is open exactly while something is held, runs in its direction, accounts for every share and for the profit since it began, through partial closes and flips |
| Ledger.TradeIsExact | src/emporos/backtest/portfolio.py:170-187 | a closed trade's gross is its signed exit turnover minus entry turnover |
| Ledger.ApplyKeepsBook | src/emporos/backtest/portfolio.py:123-139 | after any fills positions, profit, fees, turnover, closed trades and the open trip all agree with the fills booked; a trip, open or closed, is the run's and dates from the fill that opened the position and accounts for everything traded since |
| Ledger.RoundTripsTelescope | src/emporos/backtest/portfolio.py:151-195 | closed trades plus the open trip's share add up to the account's profit and fees, per instrument |
| Ledger.EquityFromFills | src/emporos/backtest/portfolio.py:203-214 | equity is the starting cash and what the fills have come to: every share at the price of what is held against its own, less charges |
| Ledger.MarkMovesEquity | src/emporos/backtest/portfolio.py:141-142 | a new price moves the equity by its change times what is held, and by nothing else |
| Ledger.BookIsWorth | src/emporos/backtest/portfolio.py:123-149 | after any fills and prices, in any order, the last prices are the last seen in a fill or on their own, and equity and exposure are what the fills have come to at them |
| Ledger.RecordedIsTold | src/emporos/backtest/portfolio.py:242-246 | a recorded point says that equity, the holdings at those prices whichever way held, and how many instruments are held |
| Valuation.EquityCurveIs | src/emporos/backtest/session.py:67-74 | a finished run has one equity point at each bar's close and no other, and each says what the fills made by then, and none later, come to at the last closes by then |
| MultiReplay.MultiReplayIsTold | src/emporos/backtest/multi_engine.py:356-374 | so has a finished multi-strategy run |
| Ledger.OpenExactly | src/emporos/backtest/portfolio.py:105-110 | the open positions are exactly the instruments held, each once |
| Portfolio.PaperAccount.ApplyTrade | src/emporos/broker/paper/account.py:74-86 | books one trade; negative charges are refused and change nothing |
| Portfolio.BacktestPortfolio.Owner | src/emporos/backtest/portfolio.py:112-120 | the strategy whose fill opened the trip, or an error when nothing is open |
| Portfolio.BacktestPortfolio.ApplyFill | src/emporos/backtest/portfolio.py:123-139 | account, mark, totals and round trip after one fill; nothing changes on an error |
| Portfolio.BacktestPortfolio.TrackCycle | src/emporos/backtest/portfolio.py:151-168 | the trip objects change exactly as one fill changes a trip |
| Portfolio.BacktestPortfolio.CloseCycle | src/emporos/backtest/portfolio.py:170-195 | records the closed trade and opens the flipped remainder at the fill |
| Portfolio.BacktestPortfolio.UnrealisedNow | src/emporos/backtest/portfolio.py:212-220 | the sum of (mark - average) x quantity over what is held |
| Portfolio.BacktestPortfolio.RecordPointAt | src/emporos/backtest/portfolio.py:242-246 | appends the equity, exposure and open count of this moment |
| Netting.EveryOrderHasOneOutcome | src/emporos/backtest/flow.py:141-150 | every order is exactly one of rejected, cancelled, forced, filled or open |
| Netting.AgreesMatch | src/emporos/backtest/broker.py:121-136 | the events a bar emits report exactly what it did to the ledger |
| Netting.AgreesExpire | src/emporos/backtest/broker.py:138-145 | the events of an expiry report exactly the cancellations |
| Lookahead.FairMeansUnseen | src/emporos/backtest/broker.py:126-127 | a bar that may trade an order had not closed when the order was accepted |
| Lookahead.MatchHonest | src/emporos/backtest/broker.py:121-136 | every fill of a bar is logged with that bar and was fair; every arming too |
| ExitOnly.MatchShrinks | src/emporos/backtest/square_off.py:58-81 | where only an exit rests, a bar can only shrink the position and the exit still fits it |
| Simulation.SettleBudget | src/emporos/backtest/flow.py:131-139 | delivering an event always uses up the strategy's finite answers, so settling ends |
| Safety.SignalFate | src/emporos/backtest/flow.py:82-105 | a signal is refused by the cutoff, refused by the gate, stops the run exactly when its priced order cannot be built, or becomes exactly one order no larger than it, with one event |
| Safety.SignalBecomes | src/emporos/backtest/flow.py:96-105 | the order a signal becomes is what the gate let pass at the prices it was given, tagged with its number, refused exactly when the exchange's policy refuses it |
| Safety.UnbuildableIff | src/emporos/backtest/orders.py:34-62 | a gated, priced signal makes no order exactly when its limit is not positive, limit and trigger are the wrong way round, or the trigger is missing or out of place |
| Safety.AnswersStopIff | src/emporos/strategies/runner.py:191-194 | answers stop the run exactly when one of them, at its turn, makes an order that cannot be built |
| Safety.RepliesInFull | src/emporos/strategies/runner.py:191-194 | one callback takes one answer of the strategy and submits all of its signals |
| Pricing.Marketable.BuildableIff | src/emporos/domain/marketable.py:32-48 | exactly which signals make an order under the pricing in use, in terms of limit, trigger, buffer and tick |
| Pricing.Marketable.PricesAre | src/emporos/domain/marketable.py:32-48 | a limit order is priced so much through the market and a stop at its own limit and trigger, all of them at the first whole tick, a buy's upwards and a sell's downwards |
| Safety.SubmitKeeps | src/emporos/backtest/flow.py:82-105 | no signal breaks the invariant, trades anything, or gets past the cutoff, whether or not it stops the run |
| Safety.ReplyKeeps | src/emporos/strategies/runner.py:149-153 | whatever a strategy answers keeps the invariant and moves no position |
| Safety.PopKeeps | src/emporos/backtest/flow.py:131-139 | when the strategy hears of an event, the book already holds every fill delivered so far, that one included |
| Safety.SettleKeeps | src/emporos/backtest/flow.py:131-139 | settling delivers every event once and in order until the queue is empty or an answer stops the run; the invariant is kept and nothing trades |
| Safety.BookAgrees | src/emporos/backtest/flow.py:131-150 | with the queue empty the book's net quantity is the signed sum of the exchange's fills |
| Safety.MatchKeeps | src/emporos/backtest/session.py:69-71 | a bar keeps the invariant, and positions the session owns only shrink |
| Safety.ExpireKeeps | src/emporos/backtest/session.py:78-83 | expiry keeps the invariant, trades nothing, leaves nothing open |
| Safety.CancelKeeps | src/emporos/backtest/session.py:111-112 | a cancellation keeps the invariant and moves no position |
| SessionSafety.OwnerKnown | src/emporos/backtest/portfolio.py:112-120 | the owner of a held position can always be named |
| SessionSafety.MarkKnown | src/emporos/backtest/portfolio.py:144-149 | a held position always has a last price |
| SessionSafety.PlanKeeps | src/emporos/backtest/square_off.py:58-81 | after the plan's cancellations nothing rests in the instrument, the position is as it was, and the session owns it |
| SessionSafety.ExitFate | src/emporos/backtest/square_off.py:58-81 | what becomes of a due square-off, and exactly when its exit stops the run: at a close that is no price, or when the priced exit makes no order |
| ClosingTrades.SquareOffSends | src/emporos/backtest/square_off.py:58-81 | late in the Indian day, with a position and no plan yet, and only then, the session sends one exit: the whole position, the other way, at the bar's close, in its owner's name |
| ClosingTrades.CancelsWhatRests | src/emporos/backtest/session.py:111-114 | before the exit goes out every order still working in the instrument is cancelled, and no other order changes |
| ClosingTrades.ExitClosesExactly | src/emporos/backtest/square_off.py:67-79 | an exit the gate passes unchanged rests as an order that closes the position exactly, and it is the one the session remembers |
| SessionSafety.SquareOffKeeps | src/emporos/backtest/session.py:105-114 | square-off moves no position, and leaves the instrument owned for the day and its exit known |
| SessionSafety.BarKeeps | src/emporos/backtest/session.py:66-76 | everything around a bar keeps the invariant, as far as it gets; owned positions only shrink |
| SessionSafety.ForcedPriceIsAgainstUs | src/emporos/backtest/square_off.py:92-96 | the forced price is never better than the last price, and is the first whole paisa past it once the penalty is counted |
| SessionSafety.LongClosable | src/emporos/backtest/square_off.py:92-96 | a long can be closed exactly when the penalty leaves a paisa of its price |
| SessionSafety.ShortClosable | src/emporos/backtest/square_off.py:92-96 | a short can be closed exactly when its last price is positive |
| ClosingTrades.ForcedTradeIs | src/emporos/backtest/session.py:84-93 | a forced trade closes the whole position at once, now, at its penalised last price, in its owner's name; without a positive price there is none and the run stops |
| SessionSafety.SessionEndsFlat | src/emporos/backtest/session.py:78-94 | the session's end leaves every position flat unless the run stops; a forced trade stops it if and only if expiry was answered and some open position has no forced price, and with a silent receiver nothing else can |
| RunSafety.HandleKeeps | src/emporos/backtest/replay.py:74-77 | one bar of a replay, clock and strategy included, keeps the invariant as far as it gets |
| RunSafety.AfterSquareOffOnlyShrinks | src/emporos/backtest/square_off.py:8-11 | once an instrument is owned, for the rest of the day and whatever the strategy sends, the position never grows or changes sign, even if the run stops; while it goes on only the exit the session sent rests there, and it fits the position |
| RunSafety.DayCloses | src/emporos/backtest/replay.py:82-86 | the whole day's end leaves everything flat and nothing resting unless the run stops, by a forced trade exactly when some open position has no forced price |
| RunSafety.ReplayIsSafe | src/emporos/backtest/replay.py:66-80 | any replay of any bars against any strategy ends flat and empty with every promise kept, or stopped for a reason that is named: a signal or exit no order can be built from, or a position with no forced price; and stopped or not, exchange, book and counters agree |
| RunSafety.OneDay | src/emporos/backtest/replay.py:66-80 | the bars of one Indian day are traded one after another, and then the day is closed, once |
| RunSafety.NothingPassesMidnight | src/emporos/backtest/replay.py:69-73 | where the Indian day changes the run is flat, nothing rests, and it goes on as a new one would |
| RunSafety.OrdersAreReported | src/emporos/backtest/broker.py:185-199 | the last a strategy heard of each order is what it is, with the filled quantity and average price of exactly the fills it was told of |
| RunSafety.FillsAreNumbered | src/emporos/backtest/broker.py:185-199 | fills are numbered from one in the order they were made |
| RunSafety.TagsAreUnique | src/emporos/backtest/broker.py:92-96 | no client tag is used twice in a run |
| RunSafety.LastAnswer | src/emporos/strategies/runner.py:155-161 | at a day's end the strategy gives one more answer, all of it submitted, and hears nothing more |
| RunSafety.BarKeepsCurve | src/emporos/backtest/session.py:67-74 | equity points are recorded at strictly increasing instants |
| RunSafety.NoLookAhead | src/emporos/backtest/broker.py:121-136 | every matched fill of a run comes from a closed bar that opened at or after acceptance, and for a stop at or after the close of a bar that reached its trigger; and the bar traded through its limit, or reached it by the gentler rule |
| RunSafety.NoFillWorseThanLimit | src/emporos/backtest/fill_model.py:60-64 | no matched fill of a run, stopped or not, was worse than its order's limit |
| StoppedRuns.AnUnbuildableSignalStopsTheRun | src/emporos/backtest/orders.py:56-62 | one bar, one valid stop signal on the wrong side: the run is over |
| StoppedRuns.AnUnbuildableExitStopsTheRun | src/emporos/domain/marketable.py:36-43 | a run stopped by its own exit, priced below a tick |
| StoppedRuns.ACloseOfNothingStopsTheRun | src/emporos/backtest/square_off.py:69-79 | a run stopped by its own exit at a close of zero |
| StoppedRuns.AnUnclosablePositionStopsTheRun | src/emporos/backtest/square_off.py:96 | a run stopped at its end by a long marked at a paisa under a penalty of fifty basis points |
| RunSafety.CountersBalance | src/emporos/backtest/flow.py:30-40 | signals equal refusals plus rejections plus orders, and each counter equals the orders or fills it names |
| Flow.RunCounters.Count | src/emporos/backtest/flow.py:141-150 | one event moves exactly the counters it should |
| Flow.OrderEventQueue.Pop | src/emporos/backtest/flow.py:49-50 | hands out the oldest event, or nothing |
| Flow.SessionSquareOff.Plan | src/emporos/backtest/square_off.py:58-81 | one plan per instrument and day, once late with a position open: cancel its resting orders, exit all of it |
| Flow.MineIsResting | src/emporos/backtest/square_off.py:80 | the plan's cancellations are exactly what rests in the instrument |
| Flow.OrderFlow.RouteSignal | src/emporos/backtest/flow.py:96-105 | gate, count, price, build, submit and queue, and the exception an unbuildable order raises, as the run's description says |
| Flow.OrderFlow.Submit | src/emporos/backtest/flow.py:82-88 | the strategy's signals meet the cutoff first; an exception passes through |
| Flow.OrderFlow.SubmitBySession | src/emporos/backtest/flow.py:90-94 | the session's own exit skips the cutoff; an exception passes through |
| Flow.StrategyRunner.ForwardSignals | src/emporos/strategies/runner.py:191-194 | every answer of a callback is submitted in order, up to the first that raises |
| Flow.EventSettler.DeliverOne | src/emporos/backtest/flow.py:131-139 | one event is counted and booked before the strategy hears of it |
| Flow.EventSettler.SettleAll | src/emporos/backtest/flow.py:131-139 | the draining loop ends where the description of settling ends, exceptions included |
| Session.BacktestSession.BeforeBar | src/emporos/backtest/session.py:66-76 | the session's bar does, in order, what the run's description says, and raises what it raises |
| Session.BacktestSession.SquareOffStep | src/emporos/backtest/session.py:105-114 | plan, cancel, exit and settle happen exactly when due; an exit that cannot be built is raised at the same point |
| Session.BacktestSession.ForceOne | src/emporos/backtest/session.py:84-93 | one position is closed at its forced price, or the lookup that failed is reported |
| Session.BacktestSession.SessionEnding | src/emporos/backtest/session.py:78-94 | expire, settle, force every open position, settle; it raises exactly when the description does |
| Session.BacktestSession.SessionClosed | src/emporos/backtest/session.py:96-103 | what the strategy sent last is expired and the last point recorded |
| Session.BacktestSession.RecordPointNow | src/emporos/backtest/session.py:140-143 | the pending point is recorded once |
| Session.BarReplay.Run | src/emporos/backtest/replay.py:66-80 | the replay loop, with day boundaries, clock and exceptions, equals the described run |
| Session.BarReplay.CloseSession | src/emporos/backtest/replay.py:82-86 | ending, last word, closing and reopening in that order |
| MultiReplay.BatchesAreMoments | src/emporos/backtest/multi_engine.py:356-374 | batches are the bars cut only where the time changes: each is everything of its moment, and moments increase |
| MultiReplay.MultiDayCloses | src/emporos/backtest/multi_engine.py:388-390 | with a silent receiver the day's end is flat and empty, if and only if every open position has a forced price |
| MultiReplay.MultiReplayIsSafe | src/emporos/backtest/multi_engine.py:356-374 | any multi-strategy replay ends flat and empty with every promise kept, or stopped for a reason that is named |
| MultiReplay.MultiOneDay | src/emporos/backtest/multi_engine.py:356-374 | one Indian day of a multi-strategy run: its bars with their batches between, the last batch, then one closing |
| MultiReplay.MultiDaysApart | src/emporos/backtest/multi_engine.py:356-374 | where the Indian day changes such a run might as well have ended and begun again |
| MultiReplay.BatchesAreAnswered | src/emporos/backtest/multi_engine.py:380-386 | a batch with bars in it takes one answer and submits all of its signals; an empty one is not handed over |
| MultiReplay.MultiOnlyShrinks | src/emporos/backtest/multi_engine.py:356-386 | an owned position only shrinks and keeps its sign there too, with only its exit resting |
| MultiReplay.MultiStrategyReplay.FlushBatch | src/emporos/backtest/multi_engine.py:380-386 | a non-empty batch is handed over once and every answer submitted |
| MultiReplay.MultiStrategyReplay.Run | src/emporos/backtest/multi_engine.py:356-374 | the batching loop equals the described run and hands over exactly the batches, each before any later bar |
| Engine.RunBacktest | src/emporos/backtest/engine.py:127-197 | from bar store to report: every bar owed is replayed once in turn, and the run keeps every promise, its equity curve included, or stops for a reason that is named |
| Engine.RunMultiBacktest | src/emporos/backtest/multi_engine.py:208-279 | the same for many strategies, which answer to whole moments |
| Feed.Check | src/emporos/backtest/feed.py:101-117 | accepts exactly bars of the right series, opening in the range, no two at one time |
| Feed.ClosedBarFeed.ClosedBars | src/emporos/backtest/feed.py:92-99 | one range's closed bars of every instrument, strictly by time then rank |
| Feed.ClosedBarFeed.Bars | src/emporos/backtest/feed.py:78-90 | one pass only; whatever the repository does, the bars handed out up to the first error are owed and strictly in turn, and exactly the bars owed when it serves a store |
| Feed.HandsOut | src/emporos/backtest/feed.py:78-99 | the bars handed out open within the window and are over by its end; earlier first, and at one time in the order the instruments were named |
| Feed.ChunksDoNotMatter | src/emporos/backtest/feed.py:84-90 | any two chunk sizes hand out the same bars in the same order |
| Sorting.SortedOneWay | src/emporos/backtest/feed.py:99 | sorted by a strict order, the same bars have only one sequence |
| Sse.SseDecoder.Push | dashboard/src/lib/live.ts:21-40 | a push yields exactly the messages of buffer and chunk and keeps the unfinished rest; it throws exactly over the limit, before reading, with the chunk kept |
| Sse.ReadFrame | dashboard/src/lib/live.ts:29-38 | the last event and id lines decide, data lines are joined in order, a frame without data says nothing |
| Sse.DecodeResumes | dashboard/src/lib/live.ts:21-40 | decoding may stop anywhere, inside a CR LF or a blank line too, and go on with what is left |
| Sse.ChunkingDoesNotMatter | dashboard/src/lib/live.ts:21-40 | any split no push of which is refused gives the messages and rest of the whole text |
| Sse.FeedDecoder | dashboard/src/lib/live.ts:95 | the decoder object fed chunk by chunk reports exactly that |
| SseFields.DecodeBlocks | dashboard/src/lib/live.ts:21-40 | any frames, with fields in any number and order, unknown lines, and LF or CR LF after each line, decode frame by frame to the last id, the last kind and the data lines, or to nothing without data |
| SseFields.BlocksArrive | dashboard/src/lib/live.ts:21-40 | the same through any split into chunks that is not refused |
| SsePrinting.DecodePrinted | src/emporos/api/app.py:235-248 | decoding any printed frames, retries and keep-alives included, gives exactly the changes printed and nothing left over |
| SsePrinting.StreamArrives | src/emporos/api/app.py:221-256 | the same through any split into chunks |
| SsePrinting.ArrivesExactly | src/emporos/api/app.py:243-245 | id and kind arrive unchanged exactly when they carry no surrounding space and there is a kind |
| SsePrinting.NeverTooLarge | dashboard/src/lib/live.ts:22-24 | the stream is never refused while one frame and one chunk fit the limit together |
| ChangeStream.PollSends | src/emporos/api/app.py:238-245 | a poll sends exactly the due changes of its pages, in order, and resumes at the last, whatever changed between its reads |
| ChangeStream.LostIff | src/emporos/api/queries.py:369-387 | a poll loses a due change exactly when it leaves it off its page and sends a later one, or when the change became visible after its own kind's read, at or below the last point the poll sends |
| ChangeStream.ShortPagesAreWhole | src/emporos/api/queries.py:384 | pages that are not full hold everything due that was stored when they were read |
| ChangeStream.OverflowLosesAChange | src/emporos/api/queries.py:384 | 501 orders and a later position: the last order is never sent |
| ChangeStream.TiesCanStall | src/emporos/api/queries.py:384 | 501 orders of one instant: a repeated page leaves one due for ever |
| ChangeStream.AChangeBetweenReadsIsLost | src/emporos/api/queries.py:375-384 | an order stored after the orders were read and a later command the same poll reads: the order is never sent, though no page was full |
| ChangeStream.PollStep | src/emporos/api/app.py:238-245 | a completed poll keeps every stored change covered exactly when it overtakes none that is due and none came too late |
| PageLimits.EveryAnswerServesIff | src/emporos/api/queries.py:384 | whatever pages the database chooses, one poll of a quiet store sends everything due if and only if every kind with something due has at most a page of records from the cursor on |
| PageLimits.StandsStillIff | src/emporos/api/app.py:238-245 | a poll sends nothing and stays where it is exactly when its pages hold nothing due |
| PageLimits.CanStandStillIff | src/emporos/api/queries.py:384 | some answer makes a poll stand still if and only if every kind with something due has a full page of delivered records at the cursor's instant |
| ChangeStream.StreamIsOrderly | src/emporos/api/app.py:221-256 | over every run of changes, reads, deliveries and reconnects each point arrives at most once, strictly in order; in gentle runs, where no poll overtakes a due change and none comes too late for it, none is lost |
| ChangeStream.ArrivesInOrder | src/emporos/api/queries.py:385-387 | in every run changes arrive by time, at one time by kind, and within a kind by name |
| ChangeStream.LessAtFirstDifference | src/emporos/api/queries.py:385-387 | names compare at the first place where they differ |
| ChangeStream.Connects | src/emporos/api/app.py:232-234 | a first connection starts in order with nothing missed |
| ChangeStream.EveryPollCatchesUp | src/emporos/api/app.py:224-231 | right after a poll of a gentle run every stored change past the start that its kind's read could see has been delivered, if pages were whole, and every other is still to come |
| ChangeStream.ReconnectStep | src/emporos/api/app.py:232-234 | what a lost connection lost on the wire is due again |
| EventStream.ResumesWhereItStood | src/emporos/api/app.py:210-218 | a printed id leads back to its change even when the record's name holds the separator |
| EventStream.FullCircle | src/emporos/api/app.py:210-248 | the decoded message of a printed change has its payload and kind, and its id resumes at that change |
| EventStream.EventStream.constructor | src/emporos/api/app.py:232-234 | a connection starts at its resume point, or now |
| EventStream.EventStream.Receive | src/emporos/api/app.py:237-248 | two pages are only gathered; the third completes the poll and prints exactly what it sends, and a keep-alive every fifteenth |
| EventStream.EventStream.Ask | src/emporos/api/queries.py:375-384 | the kinds are asked for in turn, each from the cursor of the poll's start |
| Commands.CommandCoordinator.Restore | dashboard/src/lib/commands.ts:42-62 | memory after a restore: nothing, an unresolved intention, or an unreadable one |
| Commands.CommandCoordinator.Submit | dashboard/src/lib/commands.ts:63-88 | nothing is sent that is not written down first |
| Commands.CommandCoordinator.SubmitReply | dashboard/src/lib/commands.ts:89-114 | accepted, refused or unconfirmed, with every storage failure |
| Commands.CommandCoordinator.Resolve | dashboard/src/lib/commands.ts:116-124 | asks about the current key only while pending and idle |
| Commands.CommandCoordinator.ResolveReply | dashboard/src/lib/commands.ts:119-135 | the outcome is held, or the command stays pending |
| Commands.CommandCoordinator.Discard | dashboard/src/lib/commands.ts:141-164 | abandons an idle, unconfirmed command, with either removal failing |
| Commands.CommandCoordinator.Accept | dashboard/src/lib/commands.ts:168-181 | only a result for the current key is held |
| Commands.EveryRunKeeps | dashboard/src/lib/commands.ts:16-186 | the coordinator's invariant holds over every allowed interleaving of submissions, replies, questions, discards, restores and reloads |
| Commands.StartsRight | dashboard/src/lib/commands.ts:18-25 | a page with empty storage satisfies the invariant |
| Commands.WhatRunsPromise | dashboard/src/lib/commands.ts:16-186 | at most one request in flight, no key sent twice, at most one unsettled key and it is the one in storage and survives a reload, any result is for the current key |
| Commands.SettledIff | dashboard/src/lib/commands.ts:89-135 | over any run a command counts as settled exactly when its submission met one of the five refusals, its own final answer was noted and cleared, or the operator abandoned it |
| Commands.SubmissionSettledIff | dashboard/src/lib/commands.ts:89-114 | every way a submission can end, and exactly when the command stays open, unresolved and on disk: any other API error, no usable answer, another command's answer, or storage failing |
| Commands.QuestionSettlesIff | dashboard/src/lib/commands.ts:119-135 | asking settles a command by its own final answer, noted and cleared, and in no other way |
| Commands.AskedByItsId | dashboard/src/lib/commands.ts:42-62 | a command once seen is asked about by its own id, after a reload too |
| Commands.SendsIff | dashboard/src/lib/commands.ts:63-88 | a submission sends exactly when nothing is pending and the storage works, and then the command is written down |
| Commands.AbandonsIff | dashboard/src/lib/commands.ts:141-164 | a command is abandoned exactly when no answer is awaited or held and both removals work |
| Commands.RestoreIsSafeIff | dashboard/src/lib/controller.ts:115-118 | restoring is safe exactly when nothing is in flight or nothing is written down |
| Commands.DiscardIsSafeIff | dashboard/src/lib/commands.ts:144-154 | abandoning is safe exactly when it does not fail half-way on an unsettled command |
| Commands.RestoreInFlightDoubles | dashboard/src/lib/controller.ts:115-118 | a run with two requests in flight |
| Commands.RestoreInFlightForgets | dashboard/src/lib/commands.ts:92-104 | and from there a sent, unsettled command with no record |
| Commands.HalfDiscardForgets | dashboard/src/lib/commands.ts:144-154 | a run with two unsettled commands |
| Commands.BusyWithoutRequestIff | dashboard/src/lib/commands.ts:92-104 | busy means a request in flight, except exactly after a refusal whose record cannot be removed |
| Commands.RefusalCanLeaveItBusy | dashboard/src/lib/commands.ts:92-104 | a run that ends busy with nothing in flight |
| Commands.StuckUntilReload | dashboard/src/lib/commands.ts:63-64 | after that nothing but a reload or a new sign-in changes the page |
| Commands.UnreadableBlocks | dashboard/src/lib/commands.ts:54-61 | an unreadable record blocks a fresh page for good |
| RateLimit.RateLimit.Windows | src/emporos/broker/ratelimit.py:56-58 | one second, sixty and three thousand six hundred: a window for every cap that is set, and no others |
| RateLimit.WindowsAreTheCaps | src/emporos/broker/ratelimit.py:33-39 | all windows are kept exactly when calls as many apart as a set cap allows are a second, a minute or an hour apart, to within a microsecond |
| RateLimit.AdmitsIffFits | src/emporos/broker/ratelimit.py:68-72 | a window has room exactly when one more call would not break its cap |
| RateLimit.InUseIsTail | src/emporos/broker/ratelimit.py:77-80 | the grants a window still counts are the last ones of the full history |
| RateLimit.FullMeansWait | src/emporos/broker/ratelimit.py:68-72 | a full window always asks for more than the tolerance and never for more than its length |
| RateLimit.WaitIsExact | src/emporos/broker/ratelimit.py:68-72 | from the instant asked for the window admits a call; more than the tolerance earlier a call would break the cap |
| RateLimit.NeverOverfull | src/emporos/broker/ratelimit.py:5-8 | a history that keeps the cap never has more grants in use than the cap |
| RateLimit.SlidingWindow.WaitTime | src/emporos/broker/ratelimit.py:68-80 | the pruned queue decides exactly as the full history would |
| RateLimit.SlidingWindow.Record | src/emporos/broker/ratelimit.py:74-75 | recording when there is room keeps the cap over the whole history and the queue within it |
| RateLimit.GroupLimiter.LongestWait | src/emporos/broker/ratelimit.py:110 | zero means all windows have room; after that wait all would, and more than the tolerance earlier one would not |
| RateLimit.GroupLimiter.Acquire | src/emporos/broker/ratelimit.py:107-116 | after any number of calls every cap of the limit has been kept; one full sleep is always enough, and a call that would break no cap does not sleep |
| WalkForward.Plan | src/emporos/backtest/walkforward.py:49-84 | exactly the windows that fit, or the error the terms deserve; the windows' own leakage checks are never tripped |
| WalkForward.Terms.FitsExactly | src/emporos/backtest/walkforward.py:71 | the count is floor(slack / step) + 1: a window fits exactly when its number is below it |
| WalkForward.PlanIsSound | src/emporos/backtest/walkforward.py:1-10 | every window inside the span, tests after training by exactly the embargo, in both modes, tests not overlapping |
| WalkForward.PlanIsFull | src/emporos/backtest/walkforward.py:71-84 | the first window begins with the data, each is a step after the last, and another would run past the end; there is none exactly when not even one fits |
| WalkForward.DefaultStepTiles | src/emporos/backtest/walkforward.py:59-61 | with the default step tests tile the data |
| WalkForward.Verify | src/emporos/backtest/walkforward.py:90-98 | accepts exactly non-empty sequences whose neighbours do not overlap |
| WalkForward.NeighboursAreEnough | src/emporos/backtest/walkforward.py:93-98 | then no two test periods overlap at all |
| WalkForward.ClaimAll | src/emporos/backtest/walkforward_run.py:115-116 | after the check the claims never raise |
| WalkForwardRun.Select | src/emporos/backtest/tuning.py:95-104 | the entry no later one beats, or an error when none is scored |
| WalkForwardRun.BestIsFirstBest | src/emporos/backtest/tuning.py:92-104 | that entry is the first of those with the highest score |
| WalkForwardRun.RegroupingIsRight | src/emporos/backtest/walkforward_run.py:131-145 | flattened, scored in one batch and cut up again, every window has its own candidates' scores |
| WalkForwardRun.TrainAll | src/emporos/backtest/walkforward_run.py:124-145 | every window's training scores; an error exactly when some configuration cannot be made or some training run failed |
| WalkForwardRun.TestAll | src/emporos/backtest/walkforward_run.py:147-161 | every choice's test result, or an error exactly when a test run failed |
| WalkForwardRun.Run | src/emporos/backtest/walkforward_run.py:101-122 | the run is what a reader would describe window by window, with its errors in the order they are met |
| WalkForwardRun.ChoiceIsBest | src/emporos/backtest/walkforward_run.py:114 | each choice is the first candidate with the highest score on its own training window |
| WalkForwardRun.ChoiceIsUnbeaten | src/emporos/backtest/tuning.py:92-104 | no candidate's run on that training window scored higher, and every earlier candidate's scored less or not at all |
| WalkForwardRun.TestsCannotInfluenceChoices | src/emporos/backtest/walkforward_run.py:9-10 | backtesters that agree on training runs choose alike |
| Batch.SerialBatch | src/emporos/backtest/batch.py:124-137 | one outcome per item in order, a failed run reported and never costing the others |
| Batch.OutcomesAreTheirOwn | src/emporos/backtest/batch.py:124-137 | an outcome carries its own item's title and its own run's result or error |
| Batch.ProcessPoolBatch | src/emporos/backtest/parallel.py:126-155 | for every completion order the serial outcomes; when a worker dies every item still pending fails and no finished one is lost; progress counts up |
| Batch.ResultsAre | src/emporos/backtest/batch.py:109-115 | every result in order, exactly when nothing failed |

## Left out

- Strategies, risk gates, fee schedules and rejection policies are arbitrary functions of the call number and
  the signal, order or fill, and pricing of the signal; gates may refuse or shrink but not enlarge a signal,
  charges are not negative. A strategy answers with a finite script, so a run is finite.
- Decimal arithmetic is exact: money is `real`, rounded only where the code quantizes to paise or ticks, so a
  rounded average price is not modelled.
- Order ids are ledger positions and client tags are numbered values instead of strings.
- Every bar has a time before its close; bars of one feed share a timeframe.
- Progress reports, alerts, log sinks, warm-up history and metrics around a run, and a strategy's halt after
  an exception of its own (it is a script that answers with nothing).
- Equality of two bars, requests or candidates is equality of their values; object identity is modelled for
  orders, round trips and windows only.
- Engine.RunBacktest: the repository is assumed to serve a store; a run over bars cut short by a feed error is
  modelled only up to the feed.
- Engine.RunMultiBacktest: the candidate ranking inside the opportunity pipeline is part of the strategies'
  answers, and the repository is assumed to serve a store.
- Sse.SseDecoder.Push: text is a sequence of Unicode characters, so the size limit counts characters where
  JavaScript counts UTF-16 units.
- EventStream.FullCircle: how instants are written and read is assumed to be inverse and free of the separator,
  and JSON text of a payload is assumed to be one line.
- ChangeStream.StreamIsOrderly: a client that has received nothing starts again at the present when it
  reconnects, as the server does; what changed in between is not claimed.
- EventStream.EventStream.Receive: waiting, waking and disconnecting between polls are not modelled.
- Commands.CommandCoordinator.Restore: reading storage is assumed not to throw; parsing is abstracted to
  readable or not.
- Commands.EveryRunKeeps: requests to the gateway end in an answer, an API error or neither; their transport is
  not modelled.
- RateLimit.GroupLimiter.Acquire: the lock's fairness and the map from group names to limiters are not modelled;
  a sleep lasts at least as long as asked.
- Batch.ProcessPoolBatch: cancellation and the pool's own lifetime are not modelled; a run is a function of its
  spec.
- The command line, storage, HTTP and WebSocket plumbing, dashboard components, authentication, reports and the
  vault gate: wiring, or short checks that would only add easy members.
