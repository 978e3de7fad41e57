/** Whole backtests: every object built and wired, then run over a feed. */
module Engine {
  import opened Basics
  import opened Market
  import opened Clock
  import opened Broker
  import opened Ledger
  import opened Portfolio
  import opened Simulation
  import opened Safety
  import opened SessionSafety
  import opened RunSafety
  import opened Flow
  import opened Session
  import opened MultiReplay
  import Feed
  import Valuation

  /** What a finished run reports. */
  datatype Report = Report(trades: seq<ClosedTrade>, curve: seq<EquityPoint>, counters: Counters)

  /** A finished run: every bar was seen, nothing is held, rests or waits, and the equity curve has one point
      at each bar's close, which says what the fills by then come to at the last closes by then. */
  ghost predicate Finished(cfg: Config, cash: real, w: World, bars: seq<Candle>) {
    && CurveOk(w) && w.queue == [] && w.pending == None && Flat(w) && NothingRests(w) && w.bars == bars
    && Valuation.CurveIs(cfg, w, cash)
  }

  /** What a run comes to: a report, with every promise it was held to; or what stopped it, one of the
      reasons `Stopped` gives, and then still nothing that was ever traded broke a rule. */
  ghost predicate Delivers(cfg: Config, cash: real, r: Result<Report, Fault>, w: World, bars: seq<Candle>) {
    && Inv(cfg, w)
    && match r
       case Ok(report) =>
         && w.fault.None? && report == Report(w.book.trades, w.book.curve, w.counters)
         && Finished(cfg, cash, w, bars)
       case Err(fault) => w.fault == Some(fault) && Stopped(cfg, w)
  }

  lemma Concludes(cfg: Config, cash: real, r: Result<Report, Fault>, w: World, bars: seq<Candle>)
    requires Inv(cfg, w)
    requires w.fault.None? ==>
               Finished(cfg, cash, w, bars) && r == Ok(Report(w.book.trades, w.book.curve, w.counters))
    requires w.fault.Some? ==> r == Err(w.fault.value)
    ensures Delivers(cfg, cash, r, w, bars)
  {
    hide Stopped, Finished;
  }

  /** The exchange, the queue and the order flow of a new run. */
  method OpenExchange(cfg: Config, now: int, portfolio: BacktestPortfolio) returns (flow: OrderFlow)
    requires cfg.Valid()
    ensures flow.Valid() && flow.cfg == cfg && flow.cutoff.portfolio == portfolio
    ensures forall cash, script :: flow.Shows(Start(cash, now, script))
    ensures fresh(flow) && fresh(flow.queue) && fresh(flow.counters) && fresh(flow.cutoff)
    ensures fresh(flow.broker) && fresh(flow.broker.clock) && flow.broker.orders == []
  {
    hide Config.Valid, SimulatedBroker.Valid, RunCounters.View;
    var clock := new BarClock(now);
    var broker := new SimulatedBroker(clock, cfg.model, cfg.rejects);
    var counters := new RunCounters();
    var queue := new OrderEventQueue();
    var squareOff := new SessionSquareOff(cfg, clock, portfolio);
    flow := new OrderFlow(cfg, broker, squareOff, queue, counters);
  }

  /** Everything around the strategies, wired together. */
  method Assemble(cfg: Config, cash: real, now: int, script: seq<seq<Signal>>, listening: bool)
    returns (session: BacktestSession)
    requires cfg.Valid()
    ensures session.Valid() && session.cfg == cfg
    ensures session.Shows(Start(cash, now, script).(listening := listening))
    ensures fresh(session) && fresh(session.queue) && fresh(session.flow.counters) && fresh(session.settler.receiver)
    ensures fresh(session.broker) && fresh(session.broker.clock) && fresh(session.squareOff)
    ensures session.broker.orders == []
    ensures fresh(session.portfolio) && fresh(session.portfolio.account) && session.portfolio.Repr == {}
  {
    hide Config.Valid, SimulatedBroker.Valid, SimulatedBroker.View, BacktestPortfolio.Valid, BacktestPortfolio.View,
         RunCounters.View;
    var portfolio := new BacktestPortfolio(cash);
    var flow := OpenExchange(cfg, now, portfolio);
    assert flow.Shows(Start(cash, now, script));
    var receiver := new StrategyRunner(flow, script, listening);
    var settler := new EventSettler(flow.queue, portfolio, receiver, flow.counters);
    session := new BacktestSession(cfg, flow.broker, portfolio, flow, flow.queue, settler, flow.cutoff);
  }

  /** The bars a feed owes, each once, strictly in turn. */
  ghost predicate HandedOut(feed: Feed.ClosedBarFeed, store: set<Candle>, bars: seq<Candle>) {
    && Feed.InTurn(feed.instruments, bars)
    && forall c :: c in bars <==>
         c in store && Feed.Owed(c, feed.instruments, feed.timeframe, feed.start, feed.end, feed.end)
  }

  /** What a feed hands out is what a replay needs: one timeframe, oldest first. */
  lemma FeedFeeds(feed: Feed.ClosedBarFeed, bars: seq<Candle>)
    requires Feed.InTurn(feed.instruments, bars)
    requires forall c :: c in bars ==>
               c.Valid() && Feed.Owed(c, feed.instruments, feed.timeframe, feed.start, feed.end, feed.end)
    ensures Feeds(bars, feed.timeframe, feed.start)
  {
    hide Feed.Rank;
    forall k | 0 <= k < |bars|
      ensures bars[k].Valid() && bars[k].timeframe == feed.timeframe && feed.start <= bars[k].ts
    {
      assert bars[k] in bars;
    }
    forall j, k | 0 <= j < k < |bars| ensures bars[j].ts <= bars[k].ts {
      assert Feed.Sooner(feed.instruments, bars[j], bars[k]);
    }
  }

  /** All that is promised of a run. */
  lemma RunFinishes(cfg: Config, cash: real, now: int, script: seq<seq<Signal>>, bars: seq<Candle>,
                    timeframe: Timeframe)
    requires cfg.Valid() && ScriptValid(script) && Feeds(bars, timeframe, now)
    ensures var w := Replay(cfg, Start(cash, now, script), None, bars);
            Inv(cfg, w) && (w.fault.None? ==> Finished(cfg, cash, w, bars))
  {
    hide Inv, CurveOk, Flat, NothingRests, Between, Feeds, ScriptValid, Replay, Config.Valid, Valuation.CurveIs;
    StartsBetween(cfg, cash, now, script, bars, timeframe);
    ReplayIsSafe(cfg, Start(cash, now, script), None, bars, timeframe);
    Valuation.EquityCurveIs(cfg, cash, now, script, bars, timeframe);
  }

  /** One strategy over a store's bars, from repository to report. */
  method RunBacktest(cfg: Config, cash: real, script: seq<seq<Signal>>, feed: Feed.ClosedBarFeed,
                     ghost store: set<Candle>) returns (r: Result<Report, Fault>, ghost bars: seq<Candle>)
    requires cfg.Valid() && ScriptValid(script) && feed.Valid() && !feed.consumed && feed.Serves(store)
    requires forall c :: c in store ==> c.Valid()
    modifies feed
    ensures HandedOut(feed, store, bars)
    ensures Delivers(cfg, cash, r, Replay(cfg, Start(cash, feed.start, script), None, bars), bars)
  {
    hide Delivers, Inv, Finished, Between, Feeds, ScriptValid, Replay, BacktestSession.Valid,
         BarReplay.Valid, Config.Valid, Feed.InTurn;
    var handed, error := feed.Bars(store);
    bars := handed;
    FeedFeeds(feed, bars);
    ghost var w := Start(cash, feed.start, script);
    StartsBetween(cfg, cash, feed.start, script, bars, feed.timeframe);
    RunFinishes(cfg, cash, feed.start, script, bars, feed.timeframe);
    var session := Assemble(cfg, cash, feed.start, script, true);
    var replay := new BarReplay(session, session.settler.receiver, session.broker.clock);
    replay.Wired();
    var fault := replay.Run(handed, feed.timeframe, w);
    if fault.Some? {
      r := Err(fault.value);
    } else {
      r := Ok(ReportOf(session, Replay(cfg, w, None, bars)));
    }
    Concludes(cfg, cash, r, Replay(cfg, w, None, bars), bars);
  }

  function ReportOf(session: BacktestSession, ghost w: World): (r: Report)
    requires session.Shows(w)
    reads session, session.settler.portfolio, session.settler.portfolio.account, session.settler.portfolio.Repr,
          session.settler.receiver, session.settler.receiver.flow.broker,
          session.settler.receiver.flow.broker.orders, session.settler.receiver.flow.broker.clock,
          session.settler.receiver.flow.queue, session.settler.receiver.flow.counters,
          session.settler.receiver.flow.cutoff
    ensures r == Report(w.book.trades, w.book.curve, w.counters)
  {
    var portfolio := session.settler.portfolio;
    Report(portfolio.trades, portfolio.curve, session.settler.receiver.flow.counters.View())
  }

  lemma MultiStarts(cfg: Config, cash: real, now: int, script: seq<seq<Signal>>, bars: seq<Candle>,
                    timeframe: Timeframe)
    requires cfg.Valid() && ScriptValid(script) && Feeds(bars, timeframe, now)
    ensures MultiBetween(cfg, Start(cash, now, script).(listening := false), None, [], bars, timeframe)
  {
    hide Inv, Feeds, Config.Valid;
    StartsBetween(cfg, cash, now, script, bars, timeframe);
    ListeningFree(cfg, Start(cash, now, script), false);
  }

  /** All that is promised of a multi-strategy run. */
  lemma MultiFinishes(cfg: Config, cash: real, now: int, script: seq<seq<Signal>>, bars: seq<Candle>,
                      timeframe: Timeframe)
    requires cfg.Valid() && ScriptValid(script) && Feeds(bars, timeframe, now)
    ensures var w := MultiReplay.MultiReplay(cfg, Start(cash, now, script).(listening := false), None, [], bars);
            Inv(cfg, w) && (w.fault.None? ==> Finished(cfg, cash, w, bars))
  {
    hide Inv, CurveOk, Flat, NothingRests, MultiBetween, Feeds, ScriptValid, MultiReplay.MultiReplay, Config.Valid,
         Valuation.CurveIs, Valuation.ToldSoFar;
    var w := Start(cash, now, script).(listening := false);
    MultiStarts(cfg, cash, now, script, bars, timeframe);
    MultiReplayIsSafe(cfg, w, None, [], bars, timeframe);
    MultiStartsTold(cfg, cash, now, script);
    MultiReplayIsTold(cfg, w, None, [], bars, timeframe);
    NothingBefore(bars);
  }

  lemma NothingBefore(bars: seq<Candle>)
    ensures [] + bars == bars
  {
  }

  lemma MultiStartsTold(cfg: Config, cash: real, now: int, script: seq<seq<Signal>>)
    ensures var w := Start(cash, now, script).(listening := false);
            Valuation.ToldSoFar(cfg, w) && w.book.startingCash == cash
  {
    hide Valuation.ToldSoFar;
    Valuation.StartsTold(cfg, cash, now, script);
    Valuation.SameTold(cfg, Start(cash, now, script), Start(cash, now, script).(listening := false));
  }

  /** Many strategies over a store's bars, from repository to report: every bar the window is owed is
      traded once, in turn, and the strategies answer to whole moments. */
  method RunMultiBacktest(cfg: Config, cash: real, script: seq<seq<Signal>>, feed: Feed.ClosedBarFeed,
                          ghost store: set<Candle>)
    returns (r: Result<Report, Fault>, ghost bars: seq<Candle>, ghost batches: seq<seq<Candle>>)
    requires cfg.Valid() && ScriptValid(script) && feed.Valid() && !feed.consumed && feed.Serves(store)
    requires forall c :: c in store ==> c.Valid()
    modifies feed
    ensures HandedOut(feed, store, bars)
    ensures var w := MultiReplay.MultiReplay(cfg, Start(cash, feed.start, script).(listening := false), None, [], bars);
            Delivers(cfg, cash, r, w, bars) && (r.Ok? ==> batches == Batches(bars))
  {
    hide Delivers, Feeds, ScriptValid, MultiReplay.MultiReplay, Config.Valid, Feed.InTurn, Batches;
    var handed, error := feed.Bars(store);
    bars := handed;
    FeedFeeds(feed, bars);
    r, batches := ReplayMulti(cfg, cash, feed.start, script, handed, feed.timeframe);
  }

  /** The run itself, over bars in turn. */
  method ReplayMulti(cfg: Config, cash: real, now: int, script: seq<seq<Signal>>, bars: seq<Candle>,
                     timeframe: Timeframe)
    returns (r: Result<Report, Fault>, ghost batches: seq<seq<Candle>>)
    requires cfg.Valid() && ScriptValid(script) && Feeds(bars, timeframe, now)
    ensures var w := MultiReplay.MultiReplay(cfg, Start(cash, now, script).(listening := false), None, [], bars);
            Delivers(cfg, cash, r, w, bars) && (r.Ok? ==> batches == Batches(bars))
  {
    hide Delivers, Inv, Finished, MultiBetween, Feeds, ScriptValid, MultiReplay.MultiReplay,
         BacktestSession.Valid, Config.Valid, Batches;
    ghost var w := Start(cash, now, script).(listening := false);
    MultiStarts(cfg, cash, now, script, bars, timeframe);
    MultiFinishes(cfg, cash, now, script, bars, timeframe);
    var session := Assemble(cfg, cash, now, script, false);
    var replay := new MultiStrategyReplay(session, session.settler.receiver);
    assert replay.Valid();
    var fault := replay.Run(bars, timeframe, w);
    batches := replay.flushed;
    if fault.Some? {
      r := Err(fault.value);
    } else {
      r := Ok(ReportOf(session, MultiReplay.MultiReplay(cfg, w, None, [], bars)));
    }
    Concludes(cfg, cash, r, MultiReplay.MultiReplay(cfg, w, None, [], bars), bars);
  }
}
