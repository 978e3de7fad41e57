/** The trading day as objects: the session drives broker, book, queue and settler in order, and the
    replay drives clock, session and strategy. Each method moves its world as `Simulation` says. */
module Session {
  import opened Basics
  import opened Market
  import opened Clock
  import opened Exchange
  import opened Broker
  import opened Ledger
  import opened Portfolio
  import opened Netting
  import opened Simulation
  import opened Safety
  import opened SessionSafety
  import opened ExitOnly
  import opened RunSafety
  import opened Flow

  class BacktestSession {
    const cfg: Config
    const broker: SimulatedBroker
    const portfolio: BacktestPortfolio
    const flow: OrderFlow
    const queue: OrderEventQueue
    const settler: EventSettler
    const squareOff: SessionSquareOff
    var pending: Option<int>
    ghost var exits: map<Instrument, nat>
    ghost var log: seq<Execution>
    ghost var bars: seq<Candle>

    constructor (cfg: Config, broker: SimulatedBroker, portfolio: BacktestPortfolio, flow: OrderFlow,
                 queue: OrderEventQueue, settler: EventSettler, squareOff: SessionSquareOff)
      ensures this.cfg == cfg && this.broker == broker && this.portfolio == portfolio && this.flow == flow
      ensures this.queue == queue && this.settler == settler && this.squareOff == squareOff
      ensures pending == None && exits == map[] && log == [] && bars == []
    {
      this.cfg, this.broker, this.portfolio, this.flow := cfg, broker, portfolio, flow;
      this.queue, this.settler, this.squareOff := queue, settler, squareOff;
      pending, exits, log, bars := None, map[], [], [];
    }

    /** The objects are wired to each other as the runner wires them. */
    ghost predicate Valid()
      reads settler.portfolio, settler.receiver.flow.broker, settler.receiver.flow.broker.orders
    {
      && settler.Valid() && settler.queue == queue && settler.portfolio == portfolio
      && settler.receiver.flow == flow && flow.broker == broker && flow.cutoff == squareOff
      && flow.queue == queue && squareOff.portfolio == portfolio
      && flow.cfg == cfg && squareOff.cfg == cfg && cfg.Valid()
    }

    /** The whole world is as `w` says. */
    ghost predicate Shows(w: World)
      reads this, settler.portfolio, settler.portfolio.account, settler.portfolio.Repr,
            settler.receiver, settler.receiver.flow.broker,
            settler.receiver.flow.broker.orders, settler.receiver.flow.broker.clock,
            settler.receiver.flow.queue, settler.receiver.flow.counters, settler.receiver.flow.cutoff
    {
      && settler.Shows(w)
      && w.pending == pending && w.exits == exits && w.log == log && w.bars == bars
    }

    lemma ValidConfig()
      requires Valid()
      ensures cfg.Valid()
    {
    }

    // ---- single steps ------------------------------------------------------------------

    method Drain(ghost w: World) returns (fault: Option<Fault>)
      requires Valid() && Shows(w) && Inv(cfg, w) && w.fault.None?
      modifies queue, flow.counters, settler.receiver`script, broker
      modifies portfolio, portfolio.account, portfolio.Repr
      ensures Valid() && fresh(portfolio.Repr - old(portfolio.Repr)) && broker.Grew()
      ensures Shows(Settle(cfg, w)) && Inv(cfg, Settle(cfg, w)) && fault == Settle(cfg, w).fault
    {
      hide Inv, Settle, EventSettler.Shows, OrderFlow.Valid, SimulatedBroker.Valid;
      SettleKeeps(cfg, w);
      SettleFrame(cfg, w);
      fault := settler.SettleAll(w);
    }

    /** Move the clock up to a bar's end; it stays where it is if that is not ahead. */
    method Sync(bar: Candle, ghost w: World)
      requires Valid() && Shows(w) && w.fault.None?
      modifies broker.clock
      ensures Valid() && Shows(Synced(w, bar))
    {
      hide SimulatedBroker.Valid, SimulatedBroker.View, BacktestPortfolio.Valid, BacktestPortfolio.View;
      broker.clock.SyncTo(bar.ClosesAt());
    }

    method PushAll(events: seq<Event>)
      modifies queue
      ensures queue.events == old(queue.events) + events
      ensures queue.pushed == old(queue.pushed) + events && queue.settled == old(queue.settled)
    {
      for n := 0 to |events|
        invariant queue.events == old(queue.events) + events[..n]
        invariant queue.pushed == old(queue.pushed) + events[..n] && queue.settled == old(queue.settled)
      {
        queue.Push(events[n]);
      }
      assert events[..|events|] == events;
    }

    method MatchAndQueue(bar: Candle) returns (ghost events: seq<Event>)
      requires broker.Valid() && AllConsistent(broker.View().orders)
      modifies queue, broker`open, broker`openByInstrument, broker`fills, broker.orders
      ensures broker.Valid()
      ensures var m := Match(old(broker.View()), bar, broker.clock.now, broker.model);
              broker.View() == m.x && events == m.events
      ensures queue.events == old(queue.events) + events
      ensures queue.pushed == old(queue.pushed) + events && queue.settled == old(queue.settled)
    {
      hide SimulatedBroker.Valid, Match;
      var happened := broker.MatchBar(bar);
      PushAll(happened);
      events := happened;
    }

    /** The bar meets the resting orders; what happened is queued. */
    method MatchStep(bar: Candle, ghost w: World)
      requires Valid() && Shows(w) && Inv(cfg, w) && w.fault.None?
      modifies this`log, this`bars, queue, broker`open, broker`openByInstrument, broker`fills, broker.orders
      ensures Valid() && Shows(MatchBar(cfg, w, bar))
    {
      hide Inv, Match, Executions, SimulatedBroker.Valid, SimulatedBroker.View, BacktestPortfolio.Valid,
           BacktestPortfolio.View;
      OrdersConsistent(cfg, w);
      MatchBarIs(cfg, w, bar);
      log, bars := log + Executions(Match(w.x, bar, w.now, cfg.model).events, bar), bars + [bar];
      assert Shows(w.(log := log, bars := bars));
      hide MatchBar;
      ghost var events := MatchAndQueue(bar);
    }

    lemma MatchBarIs(cfg: Config, w: World, bar: Candle)
      requires w.fault.None?
      ensures var m := Match(w.x, bar, w.now, cfg.model);
              MatchBar(cfg, w, bar)
              == Push(w.(x := m.x, log := w.log + Executions(m.events, bar), bars := w.bars + [bar]), m.events)
    {
      hide Match, Executions;
    }

    method ExpireStep(ghost w: World)
      requires Valid() && Shows(w) && Inv(cfg, w) && w.fault.None?
      modifies queue, broker`open, broker`openByInstrument, broker.orders
      ensures Valid() && Shows(ExpireAll(w)) && Inv(cfg, ExpireAll(w))
    {
      hide Inv, Expire, SimulatedBroker.Valid, BacktestPortfolio.Valid, BacktestPortfolio.View;
      ExpireKeeps(cfg, w);
      var events := broker.ExpireOpenOrders();
      PushAll(events);
    }

    /** `_record_point`. */
    method RecordPointNow(ghost w: World)
      requires Valid() && Shows(w) && Inv(cfg, w) && w.fault.None? && pending.Some?
      modifies this`pending, portfolio`curve
      ensures Valid() && Shows(RecordPending(w)) && Inv(cfg, RecordPending(w))
    {
      hide Inv, RecordPoint, Equity, SimulatedBroker.Valid, SimulatedBroker.View, BacktestPortfolio.Valid;
      RecordKeeps(cfg, w);
      ListingKnown(cfg, w);
      portfolio.RecordPointAt(pending.value);
      pending := None;
    }

    method MarkStep(bar: Candle, ghost w: World)
      requires Valid() && Shows(w) && Inv(cfg, w) && w.fault.None?
      modifies this`pending, portfolio`marks
      ensures Valid() && Shows(Marked(w, bar)) && Inv(cfg, Marked(w, bar))
    {
      hide Inv, SimulatedBroker.Valid, SimulatedBroker.View, BacktestPortfolio.Valid;
      MarkKeeps(cfg, w, bar);
      portfolio.Mark(bar.instrument, bar.close);
      pending := Some(bar.ClosesAt());
    }

    // ---- square-off --------------------------------------------------------------------

    method CancelOne(id: nat, ghost w: World) returns (fault: Option<Fault>)
      requires Valid() && Shows(w) && w.fault.None?
      modifies queue, broker`open, broker`openByInstrument, broker.orders
      ensures Valid() && Shows(CancelAll(w, [id])) && fault == CancelAll(w, [id]).fault
    {
      hide Cancel, SimulatedBroker.Valid, SimulatedBroker.View, BacktestPortfolio.Valid, BacktestPortfolio.View;
      CancelSingle(w, id);
      var e := broker.CancelOrder(id);
      if e.Err? {
        return Some(e.error);
      }
      queue.Push(e.value);
      return None;
    }

    method CancelPlanned(ids: seq<nat>, ghost w: World) returns (fault: Option<Fault>)
      requires Valid() && Shows(w) && w.fault.None?
      modifies queue, broker`open, broker`openByInstrument, broker.orders
      ensures Valid() && Shows(CancelAll(w, ids)) && fault == CancelAll(w, ids).fault
      ensures broker.orders == old(broker.orders)
    {
      hide CancelAll, BacktestSession.Valid, BacktestSession.Shows;
      ghost var w' := w;
      for k := 0 to |ids|
        invariant Valid() && Shows(w') && w'.fault.None? && broker.orders == old(broker.orders)
        invariant CancelAll(w', ids[k..]) == CancelAll(w, ids)
      {
        CancelFirst(w', ids[k..]);
        fault := CancelOne(ids[k], w');
        w' := CancelAll(w', [ids[k]]);
        CancelRest(w', ids[k + 1..]);
        if fault.Some? {
          return;
        }
      }
      CancelNothing(w');
      return None;
    }

    /** Ask for a plan; the day's flag is raised when there is one. */
    method PlanStep(bar: Candle, ghost w: World) returns (plan: Option<Result<SquareOffPlan, Fault>>)
      requires Valid() && Shows(w)
      modifies squareOff, this`exits
      ensures Valid()
      ensures plan.Some? <==> DueForSquareOff(cfg, w, bar)
      ensures plan.None? ==> Shows(w)
      ensures plan.Some? ==>
                && Shows(Planned(w, bar))
                && plan.value == match OwnerOf(cfg, w.book, bar.instrument)
                                 case Err(f) => Err(f)
                                 case Ok(run) =>
                                   var exit := ExitSignal(run, bar, w.book.Net(bar.instrument));
                                   if !exit.Valid() then Err(InvalidSignal(exit))
                                   else Ok(SquareOffPlan(Resting(w.x.orders, Some(bar.instrument)), exit))
    {
      hide Resting, ExitSignal, MineAmong, BacktestPortfolio.View, BacktestPortfolio.Valid, SimulatedBroker.Valid,
           OwnerOf, Signal.Valid;
      broker.WhatRests();
      broker.OpenOnes();
      MineIsResting(broker.open, broker.Ledger(), bar.instrument);
      var net := portfolio.NetNow(bar.instrument);
      plan := squareOff.Plan(bar, net, broker.open);
      if plan.Some? {
        exits := exits[bar.instrument := |broker.orders|];
      }
    }

    method SubmitExit(s: Signal, ghost w: World) returns (fault: Option<Fault>)
      requires Valid() && Shows(w) && w.fault.None?
      modifies broker, queue, flow.counters
      ensures Valid() && Shows(SubmitSystem(cfg, w, s)) && fault == SubmitSystem(cfg, w, s).fault && broker.Grew()
    {
      hide Route, SimulatedBroker.Valid, SimulatedBroker.View, BacktestPortfolio.Valid, BacktestPortfolio.View;
      RouteFrame(cfg, w.(counters := w.counters.(squareOffSignals := w.counters.squareOffSignals + 1)), s);
      fault := flow.SubmitBySession(s, w);
    }

    method SendAndDrain(exit: Signal, ghost w: World) returns (fault: Option<Fault>)
      requires Valid() && Shows(w) && w.fault.None? && Inv(cfg, SubmitSystem(cfg, w, exit))
      modifies queue, flow.counters, settler.receiver`script, broker
      modifies portfolio, portfolio.account, portfolio.Repr
      ensures Valid() && fresh(portfolio.Repr - old(portfolio.Repr)) && broker.Grew()
      ensures var w' := Settle(cfg, SubmitSystem(cfg, w, exit)); Shows(w') && fault == w'.fault
    {
      hide Inv, Settle, SubmitSystem, BacktestSession.Valid, BacktestSession.Shows;
      ghost var sent := SubmitSystem(cfg, w, exit);
      fault := SubmitExit(exit, w);
      if fault.None? {
        fault := Drain(sent);
      } else {
        Stays(cfg, sent);
      }
    }

    /** Carry out a plan: the cancellations, then the exit, then deliver what came of them. */
    method Execute(plan: SquareOffPlan, ghost w: World) returns (fault: Option<Fault>)
      requires Valid() && Shows(w) && w.fault.None? && CancelAll(w, plan.cancel).fault.None?
      requires Inv(cfg, SubmitSystem(cfg, CancelAll(w, plan.cancel), plan.exit))
      modifies queue, flow.counters, settler.receiver`script, broker, broker.orders
      modifies portfolio, portfolio.account, portfolio.Repr
      ensures Valid() && fresh(portfolio.Repr - old(portfolio.Repr)) && broker.Grew()
      ensures var w' := Settle(cfg, SubmitSystem(cfg, CancelAll(w, plan.cancel), plan.exit));
              Shows(w') && fault == w'.fault
    {
      hide Inv, Settle, CancelAll, SubmitSystem, Signal.Valid, BacktestSession.Valid, BacktestSession.Shows;
      var cancelled := CancelPlanned(plan.cancel, w);
      assert cancelled == None;
      fault := SendAndDrain(plan.exit, CancelAll(w, plan.cancel));
    }

    /** Late in the day, once per instrument and day: plan, cancel, send the exit. */
    method SquareOffStep(bar: Candle, ghost w: World) returns (fault: Option<Fault>)
      requires Valid() && Shows(w) && Inv(cfg, w) && w.fault.None?
      requires w.queue == [] && w.now == bar.ClosesAt()
      modifies this`exits, queue, flow.counters, settler.receiver`script, broker, broker.orders, squareOff
      modifies portfolio, portfolio.account, portfolio.Repr
      ensures Valid() && fresh(portfolio.Repr - old(portfolio.Repr)) && broker.Grew()
      ensures Shows(SquareOffIfDue(cfg, w, bar)) && fault == SquareOffIfDue(cfg, w, bar).fault
    {
      hide Inv, Settle, CancelAll, Resting, SubmitSystem, SquareOffIfDue, Planned, OwnerOf, ExitSignal, Signal.Valid,
           DueForSquareOff, BacktestSession.Valid, BacktestSession.Shows;
      NotDue(cfg, w, bar);
      ValidConfig();
      fault := None;
      var plan := PlanStep(bar, w);
      if plan.Some? {
        PlanIsSound(cfg, w, bar);
        if plan.value.Err? {
          FaultsAreRaised(Planned(w, bar), Some(plan.value.error));
          return Some(plan.value.error);
        }
        fault := Execute(plan.value.value, Planned(w, bar));
      }
    }

    /** The answers to what was outstanding, then the bar's trades. */
    method Trade(bar: Candle, ghost w: World) returns (fault: Option<Fault>)
      requires Valid() && Shows(w) && Inv(cfg, w) && w.fault.None?
      modifies this`log, this`bars, queue, flow.counters, settler.receiver`script, broker, broker.orders
      modifies portfolio, portfolio.account, portfolio.Repr
      ensures Valid() && fresh(portfolio.Repr - old(portfolio.Repr)) && broker.Grew()
      ensures var w' := MatchBar(cfg, Settle(cfg, w), bar); Shows(w') && fault == w'.fault
    {
      hide Inv, Settle, MatchBar, BacktestSession.Valid, BacktestSession.Shows;
      MatchStopsNothing(cfg, Settle(cfg, w), bar);
      fault := Drain(w);
      if fault.None? {
        MatchStep(bar, Settle(cfg, w));
      }
    }

    /** The answers to those trades, then the bar's mark. */
    method Value(bar: Candle, ghost w: World) returns (fault: Option<Fault>)
      requires Valid() && Shows(w) && Inv(cfg, w) && w.fault.None?
      modifies this`pending, queue, flow.counters, settler.receiver`script, broker
      modifies portfolio, portfolio.account, portfolio.Repr
      ensures Valid() && fresh(portfolio.Repr - old(portfolio.Repr)) && broker.Grew()
      ensures var w' := Marked(Settle(cfg, w), bar); Shows(w') && fault == w'.fault
    {
      hide Inv, Settle, BacktestSession.Valid, BacktestSession.Shows;
      fault := Drain(w);
      if fault.None? {
        MarkStep(bar, Settle(cfg, w));
      }
    }

    /** The bar's trades, and everything that comes of them. */
    method TradeAndValue(bar: Candle, ghost w: World) returns (fault: Option<Fault>)
      requires Valid() && Shows(w) && Inv(cfg, w) && w.fault.None? && Inv(cfg, MatchBar(cfg, Settle(cfg, w), bar))
      modifies this, queue, flow.counters, settler.receiver`script, broker, broker.orders
      modifies portfolio, portfolio.account, portfolio.Repr
      ensures Valid() && fresh(portfolio.Repr - old(portfolio.Repr)) && broker.Grew()
      ensures var w' := Marked(Settle(cfg, MatchBar(cfg, Settle(cfg, w), bar)), bar);
              Shows(w') && fault == w'.fault
    {
      hide Inv, Settle, MatchBar, BacktestSession.Valid, BacktestSession.Shows;
      ghost var matched := MatchBar(cfg, Settle(cfg, w), bar);
      fault := Trade(bar, w);
      if fault.None? {
        fault := Value(bar, matched);
      } else {
        Stays(cfg, matched);
      }
    }

    method RecordIfLater(bar: Candle, ghost w: World)
      requires Valid() && Shows(w) && Inv(cfg, w) && w.fault.None?
      modifies this`pending, portfolio`curve
      ensures Valid() && Shows(Recorded(w, bar))
    {
      hide Inv, RecordPending, BacktestSession.Valid, BacktestSession.Shows;
      PendingIs(w);
      if pending.Some? && bar.ClosesAt() > pending.value {
        RecordPointNow(w);
      }
    }

    method UpToMark(bar: Candle, ghost w: World) returns (fault: Option<Fault>)
      requires Valid() && Shows(w) && Inv(cfg, w) && w.fault.None?
      requires Inv(cfg, Recorded(w, bar)) && Recorded(w, bar).fault.None?
      requires Inv(cfg, MatchBar(cfg, Settle(cfg, Recorded(w, bar)), bar))
      modifies this, queue, flow.counters, settler.receiver`script, broker, broker.orders
      modifies portfolio, portfolio.account, portfolio.Repr
      ensures Valid() && fresh(portfolio.Repr - old(portfolio.Repr)) && broker.Grew()
      ensures var w' := Marked(Settle(cfg, MatchBar(cfg, Settle(cfg, Recorded(w, bar)), bar)), bar);
              Shows(w') && fault == w'.fault
    {
      hide Inv, Settle, MatchBar, Marked, Recorded, BacktestSession.Valid, BacktestSession.Shows;
      RecordIfLater(bar, w);
      fault := TradeAndValue(bar, Recorded(w, bar));
    }

    /** One closed bar: the point of the moment before it, the answers to what was outstanding, its
        trades and the answers to those, its mark, and square-off if that is due. */
    method BeforeBar(bar: Candle, ghost w: World) returns (fault: Option<Fault>)
      requires Valid() && Shows(w) && Inv(cfg, w) && w.fault.None? && w.now == bar.ClosesAt()
      modifies this, queue, flow.counters, settler.receiver`script, broker, broker.orders, squareOff
      modifies portfolio, portfolio.account, portfolio.Repr
      ensures Valid() && fresh(portfolio.Repr - old(portfolio.Repr)) && broker.Grew()
      ensures Shows(Simulation.BeforeBar(cfg, w, bar)) && fault == Simulation.BeforeBar(cfg, w, bar).fault
    {
      hide Inv, Settle, MatchBar, SquareOffIfDue, Marked, Recorded, Simulation.BeforeBar, BacktestSession.Valid,
           BacktestSession.Shows;
      ValidConfig();
      BarStages(cfg, w, bar);
      BarIs(cfg, w, bar);
      ghost var marked := Marked(Settle(cfg, MatchBar(cfg, Settle(cfg, Recorded(w, bar)), bar)), bar);
      fault := UpToMark(bar, w);
      if fault.None? {
        fault := SquareOffStep(bar, marked);
      } else {
        Frozen(cfg, marked, bar);
      }
    }

    /** An exception is raised, not kept: the objects look the same. */
    lemma FaultsAreRaised(w: World, fault: Option<Fault>)
      requires Shows(w)
      ensures Shows(w.(fault := fault))
    {
    }

    lemma PendingIs(w: World)
      requires Shows(w)
      ensures pending == w.pending
    {
    }

    // ---- the end of the day ------------------------------------------------------------

    /** What closing a position takes: its side and size, its forced price, its owner. */
    method ForcedTerms(i: Instrument, ghost w: World) returns (net: int, terms: Result<(real, RunId), Fault>)
      requires Valid() && Shows(w)
      ensures net == w.book.Net(i)
      ensures terms == if i !in w.book.marks then Err(NoPriceSeen)
                       else if OwnerOf(cfg, w.book, i).Err? then Err(OwnerOf(cfg, w.book, i).error)
                       else Ok((ForcedPrice(cfg, if net > 0 then SELL else BUY, w.book.marks[i]),
                                OwnerOf(cfg, w.book, i).value))
    {
      hide ForcedPrice, OwnerOf, SimulatedBroker.Valid, SimulatedBroker.View, BacktestPortfolio.Valid;
      net := portfolio.NetNow(i);
      var last := portfolio.LastPrice(i);
      if last.Err? {
        return net, Err(last.error);
      }
      var owner := squareOff.OwnerFor(i);
      if owner.Err? {
        return net, Err(owner.error);
      }
      return net, Ok((ForcedPrice(cfg, if net > 0 then SELL else BUY, last.value), owner.value));
    }

    /** The broker closes one position at its forced price, or says why it cannot. */
    method ForceOne(i: Instrument, ghost w: World) returns (fault: Option<Fault>)
      requires Valid() && Shows(w) && w.fault.None?
      modifies queue, broker
      ensures Valid() && broker.Grew() && Shows(ForceClose(cfg, w, i)) && fault == ForceClose(cfg, w, i).fault
    {
      hide SquareOff, ForcedPrice, OwnerOf, SimulatedBroker.Valid, BacktestPortfolio.Valid, BacktestPortfolio.View,
           RunCounters.View;
      var net, terms := ForcedTerms(i, w);
      if terms.Err? {
        return Some(terms.error);
      }
      var side := if net > 0 then SELL else BUY;
      var e := broker.SquareOffPosition(i, side, Abs(net), terms.value.0, terms.value.1);
      if e.Err? {
        return Some(e.error);
      }
      queue.Push(e.value);
      return None;
    }

    method DrainAndExpire(ghost w: World) returns (fault: Option<Fault>)
      requires Valid() && Shows(w) && Inv(cfg, w) && w.fault.None?
      modifies queue, flow.counters, settler.receiver`script, broker, broker.orders
      modifies portfolio, portfolio.account, portfolio.Repr
      ensures Valid() && fresh(portfolio.Repr - old(portfolio.Repr)) && broker.Grew()
      ensures var w' := ExpireAll(Settle(cfg, w)); Shows(w') && Inv(cfg, w') && fault == w'.fault
    {
      hide Inv, Settle, ExpireAll, BacktestSession.Valid, BacktestSession.Shows;
      ValidConfig();
      ExpiredKeeps(cfg, w);
      ExpiryStopsNothing(Settle(cfg, w));
      fault := Drain(w);
      if fault.None? {
        ExpireStep(Settle(cfg, w));
      }
    }

    /** The day's unfilled orders expire, and the answers are in. */
    method ExpireTheDay(ghost w: World) returns (fault: Option<Fault>)
      requires Valid() && Shows(w) && Inv(cfg, w) && w.fault.None?
      modifies queue, flow.counters, settler.receiver`script, broker, broker.orders
      modifies portfolio, portfolio.account, portfolio.Repr
      ensures Valid() && fresh(portfolio.Repr - old(portfolio.Repr)) && broker.Grew()
      ensures Shows(Expired(cfg, w)) && Inv(cfg, Expired(cfg, w)) && fault == Expired(cfg, w).fault
    {
      hide Inv, Settle, ExpireAll, BacktestSession.Valid, BacktestSession.Shows;
      ValidConfig();
      ExpiredKeeps(cfg, w);
      ghost var expired := ExpireAll(Settle(cfg, w));
      fault := DrainAndExpire(w);
      if fault.None? {
        fault := Drain(expired);
      } else {
        Stays(cfg, expired);
      }
    }

    /** Close positions one by one; the first that cannot be closed stops it. */
    method ForceEach(held: seq<Instrument>, ghost w: World) returns (fault: Option<Fault>)
      requires Valid() && Shows(w) && w.fault.None?
      modifies queue, broker
      ensures Valid() && broker.Grew() && Shows(ForceAll(cfg, w, held)) && fault == ForceAll(cfg, w, held).fault
    {
      hide ForceAll, ForceClose, BacktestSession.Valid, BacktestSession.Shows;
      ghost var w' := w;
      for k := 0 to |held|
        invariant Valid() && Shows(w') && w'.fault.None? && broker.Grew()
        invariant ForceAll(cfg, w', held[k..]) == ForceAll(cfg, w, held)
      {
        ForceFirst(cfg, w', held[k..]);
        fault := ForceOne(held[k], w');
        w' := ForceClose(cfg, w', held[k]);
        if fault.Some? {
          return;
        }
      }
      ForceNothing(cfg, w');
      return None;
    }

    /** The broker closes every position open now. */
    method ForceHeld(ghost w: World) returns (fault: Option<Fault>)
      requires Valid() && Shows(w) && Inv(cfg, w) && w.fault.None?
      modifies queue, broker
      ensures Valid() && broker.Grew()
      ensures var w' := ForceAll(cfg, w, Open(w.book, w.book.listing)); Shows(w') && fault == w'.fault
    {
      hide Inv, Open, ForceAll, BacktestSession.Valid, BacktestSession.Shows;
      var held := HeldNow(w);
      fault := ForceEach(held, w);
    }

    method ForceAndSettle(ghost w: World) returns (fault: Option<Fault>)
      requires Valid() && Shows(w) && Inv(cfg, w) && w.fault.None?
      requires Inv(cfg, ForceAll(cfg, w, Open(w.book, w.book.listing)))
      modifies queue, flow.counters, settler.receiver`script, broker
      modifies portfolio, portfolio.account, portfolio.Repr
      ensures Valid() && fresh(portfolio.Repr - old(portfolio.Repr)) && broker.Grew()
      ensures var w' := Settle(cfg, ForceAll(cfg, w, Open(w.book, w.book.listing))); Shows(w') && fault == w'.fault
    {
      hide Inv, Open, ForceAll, Settle, BacktestSession.Valid, BacktestSession.Shows;
      ghost var forced := ForceAll(cfg, w, Open(w.book, w.book.listing));
      fault := ForceHeld(w);
      if fault.None? {
        fault := Drain(forced);
      } else {
        Stays(cfg, forced);
      }
    }

    /** Unfilled orders expire, then the broker closes whatever is still open; a position it cannot
        close stops the run. */
    method SessionEnding(ghost w: World) returns (fault: Option<Fault>)
      requires Valid() && Shows(w) && Inv(cfg, w) && w.fault.None?
      modifies queue, flow.counters, settler.receiver`script, broker, broker.orders
      modifies portfolio, portfolio.account, portfolio.Repr
      ensures Valid() && fresh(portfolio.Repr - old(portfolio.Repr)) && broker.Grew()
      ensures Shows(Simulation.SessionEnding(cfg, w)) && fault == Simulation.SessionEnding(cfg, w).fault
    {
      hide Inv, Settle, Expired, Open, ForceAll, Simulation.SessionEnding, BacktestSession.Valid, BacktestSession.Shows;
      ValidConfig();
      EndingIs(cfg, w);
      EndingStages(cfg, w);
      fault := ExpireTheDay(w);
      if fault.None? {
        fault := ForceAndSettle(Expired(cfg, w));
      }
    }

    method HeldNow(ghost w: World) returns (held: seq<Instrument>)
      requires Valid() && Shows(w) && Inv(cfg, w)
      ensures held == Open(w.book, w.book.listing)
    {
      hide Inv, Open, SimulatedBroker.Valid, SimulatedBroker.View, BacktestPortfolio.Valid;
      ListingKnown(cfg, w);
      held := portfolio.OpenPositions();
    }

    /** What the strategy sent in its last word cannot rest into tomorrow. */
    method SessionClosed(ghost w: World) returns (fault: Option<Fault>)
      requires Valid() && Shows(w) && Inv(cfg, w) && w.fault.None?
      modifies this`pending, queue, flow.counters, settler.receiver`script, broker, broker.orders
      modifies portfolio, portfolio.account, portfolio.Repr
      ensures Valid() && fresh(portfolio.Repr - old(portfolio.Repr)) && broker.Grew()
      ensures Shows(Simulation.SessionClosed(cfg, w)) && fault == Simulation.SessionClosed(cfg, w).fault
    {
      hide Inv, Expired, RecordPending, Simulation.SessionClosed, BacktestSession.Valid, BacktestSession.Shows;
      ClosedIsExpired(cfg, w);
      fault := ExpireTheDay(w);
      ghost var closed := Expired(cfg, w);
      PendingIs(closed);
      RecordNothing(closed);
      if fault.None? && pending.Some? {
        RecordPointNow(closed);
      }
    }
  }

  lemma NotDue(cfg: Config, w: World, bar: Candle)
    ensures !DueForSquareOff(cfg, w, bar) ==> SquareOffIfDue(cfg, w, bar) == w
  {
  }

  /** A plan that is due: carried out if its exit can be built, raised if not. */
  lemma PlanIsSound(cfg: Config, w: World, bar: Candle)
    requires cfg.Valid() && Inv(cfg, w) && w.fault.None? && w.queue == [] && w.now == bar.ClosesAt()
    requires DueForSquareOff(cfg, w, bar)
    ensures var i, planned := bar.instrument, Planned(w, bar);
            && planned.fault.None? && OwnerOf(cfg, w.book, i).Ok?
            && var exit := ExitSignal(OwnerOf(cfg, w.book, i).value, bar, w.book.Net(i));
               if !exit.Valid() then SquareOffIfDue(cfg, w, bar) == planned.(fault := Some(InvalidSignal(exit)))
               else
                 var cleared := CancelAll(planned, Resting(w.x.orders, Some(i)));
                 && cleared.fault.None? && Inv(cfg, SubmitSystem(cfg, cleared, exit))
                 && SquareOffIfDue(cfg, w, bar) == Settle(cfg, SubmitSystem(cfg, cleared, exit))
  {
    hide Inv, Settle, CancelAll, Resting, SubmitSystem, Signal.Valid, LedgerNet;
    ExitFate(cfg, w, bar);
  }

  lemma RecordNothing(w: World)
    ensures w.pending.None? || w.fault.Some? ==> RecordPending(w) == w
    ensures RecordPending(w).fault == w.fault
  {
  }

  /** What settling leaves alone. */
  lemma SettleFrame(cfg: Config, w: World)
    requires cfg.Valid() && Inv(cfg, w)
    ensures Steady(w, Settle(cfg, w))
  {
    hide Inv, Settle, LedgerNet;
    SettleKeeps(cfg, w);
  }

  lemma MatchStopsNothing(cfg: Config, w: World, bar: Candle)
    ensures MatchBar(cfg, w, bar).fault == w.fault && (w.fault.Some? ==> MatchBar(cfg, w, bar) == w)
  {
  }

  lemma ExpiryStopsNothing(w: World)
    ensures ExpireAll(w).fault == w.fault && (w.fault.Some? ==> ExpireAll(w) == w)
  {
  }

  lemma BarIs(cfg: Config, w: World, bar: Candle)
    ensures Simulation.BeforeBar(cfg, w, bar)
         == SquareOffIfDue(cfg, Marked(Settle(cfg, MatchBar(cfg, Settle(cfg, Recorded(w, bar)), bar)), bar), bar)
  {
    hide Settle, MatchBar, SquareOffIfDue, Marked, Recorded;
  }

  lemma EndingStages(cfg: Config, w: World)
    requires cfg.Valid() && Inv(cfg, w) && w.fault.None?
    ensures var e := Expired(cfg, w);
            Inv(cfg, e) && (e.fault.None? ==> Inv(cfg, ForceAll(cfg, e, Open(e.book, e.book.listing))))
  {
    hide Inv, LedgerNet, Expired, ForceAll, Closable, Rests, Open, Quiet;
    ExpiredKeeps(cfg, w);
    var e := Expired(cfg, w);
    if e.fault.None? {
      OpenNames(cfg, e);
      StillBlocked(w, e);
      ForceAllKeeps(cfg, e, Open(e.book, e.book.listing));
    }
  }

  lemma StillBlocked(w: World, w': World)
    requires Quiet(w.(listening := true), w'.(listening := true))
    ensures forall i :: Blocked(w', i) <==> Blocked(w, i)
  {
    hide LedgerNet;
  }

  lemma ForceFirst(cfg: Config, w: World, names: seq<Instrument>)
    requires names != [] && w.fault.None?
    ensures ForceAll(cfg, w, names) == ForceAll(cfg, ForceClose(cfg, w, names[0]), names[1..])
    ensures var next := ForceClose(cfg, w, names[0]);
            next.fault.Some? ==> ForceAll(cfg, w, names) == next
  {
  }

  lemma ForceNothing(cfg: Config, w: World)
    ensures ForceAll(cfg, w, []) == w
  {
  }

  lemma CancelSingle(w: World, id: nat)
    requires w.fault.None?
    ensures var c := Cancel(w.x, id, w.now);
            CancelAll(w, [id]) == if c.Err? then w.(fault := Some(c.error))
                                  else Push(w.(x := c.value.0), [c.value.1])
  {
  }

  lemma CancelFirst(w: World, ids: seq<nat>)
    requires ids != [] && w.fault.None?
    ensures CancelAll(CancelAll(w, [ids[0]]), ids[1..]) == CancelAll(w, ids)
  {
    CancelSingle(w, ids[0]);
  }

  lemma CancelRest(w: World, ids: seq<nat>)
    ensures w.fault.Some? ==> CancelAll(w, ids) == w
  {
  }

  lemma CancelNothing(w: World)
    ensures CancelAll(w, []) == w
  {
  }

  lemma OrdersConsistent(cfg: Config, w: World)
    requires Inv(cfg, w)
    ensures AllConsistent(w.x.orders)
  {
  }

  lemma ListingKnown(cfg: Config, w: World)
    requires Inv(cfg, w)
    ensures forall i :: i in w.book.listing ==> i in w.book.positions
  {
  }

  /** `BarReplay`: clock, session and strategy, one closed bar after another. */
  class BarReplay {
    const session: BacktestSession
    const runner: StrategyRunner
    const clock: BarClock

    constructor (session: BacktestSession, runner: StrategyRunner, clock: BarClock)
      ensures this.session == session && this.runner == runner && this.clock == clock
    {
      this.session, this.runner, this.clock := session, runner, clock;
    }

    ghost predicate Valid()
      reads session.settler.portfolio, session.settler.receiver.flow.broker,
            session.settler.receiver.flow.broker.orders
    {
      session.Valid() && session.settler.receiver == runner && session.broker.clock == clock
    }

    lemma Wired()
      requires session.Valid() && session.settler.receiver == runner && session.broker.clock == clock
      ensures Valid()
    {
    }

    /** The strategy is called back about a bar. */
    method Callback(ghost w: World) returns (fault: Option<Fault>)
      requires Valid() && session.Shows(w) && Inv(session.cfg, w) && w.fault.None?
      modifies runner`script, session.broker, session.queue, session.flow.counters
      ensures Valid() && session.broker.Grew()
      ensures session.Shows(Hear(session.cfg, w)) && fault == Hear(session.cfg, w).fault
    {
      hide Inv, Reply, SimulatedBroker.Valid, SimulatedBroker.View, BacktestPortfolio.Valid, BacktestPortfolio.View;
      session.ValidConfig();
      ReplyFrame(session.cfg, w);
      fault := runner.HandleOrderUpdate(w);
    }

    method LastWord(ghost w: World) returns (fault: Option<Fault>)
      requires Valid() && session.Shows(w) && w.fault.None? && Inv(session.cfg, w.(listening := false))
      modifies runner, session.broker, session.queue, session.flow.counters
      ensures Valid() && session.broker.Grew()
      ensures session.Shows(EndSession(session.cfg, w)) && fault == EndSession(session.cfg, w).fault
    {
      hide Inv, Reply, SimulatedBroker.Valid, SimulatedBroker.View, BacktestPortfolio.Valid, BacktestPortfolio.View;
      session.ValidConfig();
      ReplyFrame(session.cfg, w.(listening := false));
      fault := runner.EndSession(w);
    }

    method Reopen(ghost w: World)
      requires Valid() && session.Shows(w) && w.fault.None?
      modifies runner`running
      ensures Valid() && session.Shows(BeginSession(w))
    {
      hide SimulatedBroker.Valid, SimulatedBroker.View, BacktestPortfolio.Valid, BacktestPortfolio.View;
      runner.BeginSession(w);
    }

    method CloseAfterLastWord(ghost w: World) returns (fault: Option<Fault>)
      requires Valid() && session.Shows(w) && w.fault.None? && Inv(session.cfg, w.(listening := false))
      requires Inv(session.cfg, EndSession(session.cfg, w))
      modifies session`pending, session.queue, session.flow.counters, runner, session.broker
      modifies session.broker.orders, session.portfolio, session.portfolio.account, session.portfolio.Repr
      ensures Valid() && fresh(session.portfolio.Repr - old(session.portfolio.Repr)) && session.broker.Grew()
      ensures var w' := SessionClosed(session.cfg, EndSession(session.cfg, w));
              session.Shows(w') && fault == w'.fault
    {
      hide Inv, EndSession, SessionClosed, BacktestSession.Valid, BacktestSession.Shows;
      ghost var last := EndSession(session.cfg, w);
      fault := LastWord(w);
      if fault.None? {
        fault := session.SessionClosed(last);
      } else {
        NothingCloses(session.cfg, last);
      }
    }

    /** `_close_session`. */
    method CloseSession(ghost w: World) returns (fault: Option<Fault>)
      requires Valid() && session.Shows(w) && Inv(session.cfg, w) && w.fault.None?
      modifies session`pending, session.queue, session.flow.counters, runner, session.broker
      modifies session.broker.orders, session.portfolio, session.portfolio.account, session.portfolio.Repr
      ensures Valid() && fresh(session.portfolio.Repr - old(session.portfolio.Repr)) && session.broker.Grew()
      ensures session.Shows(CloseDay(session.cfg, w)) && fault == CloseDay(session.cfg, w).fault
    {
      hide Inv, SessionEnding, EndSession, SessionClosed, BeginSession, BacktestSession.Valid, BacktestSession.Shows;
      ghost var cfg := session.cfg;
      session.ValidConfig();
      DayStages(cfg, w);
      fault := session.SessionEnding(w);
      if fault.Some? {
        return;
      }
      ghost var ended := SessionEnding(cfg, w);
      fault := CloseAfterLastWord(ended);
      if fault.None? {
        Reopen(SessionClosed(cfg, EndSession(cfg, ended)));
      }
    }

    method OneBar(bar: Candle, ghost w: World) returns (fault: Option<Fault>)
      requires Valid() && session.Shows(w) && Inv(session.cfg, w) && w.fault.None?
      requires bar.Valid() && w.now <= bar.ClosesAt()
      modifies session, session.queue, session.flow.counters, runner, session.broker, clock
      modifies session.broker.orders, session.portfolio, session.portfolio.account, session.portfolio.Repr
      modifies session.squareOff
      ensures Valid() && fresh(session.portfolio.Repr - old(session.portfolio.Repr)) && session.broker.Grew()
      ensures session.Shows(HandleBar(session.cfg, w, bar)) && fault == HandleBar(session.cfg, w, bar).fault
    {
      hide Inv, BeforeBar, Hear, BacktestSession.Valid, BacktestSession.Shows;
      ghost var cfg, synced := session.cfg, Synced(w, bar);
      session.ValidConfig();
      HandleStages(cfg, w, bar);
      session.Sync(bar, w);
      fault := session.BeforeBar(bar, synced);
      if fault.None? {
        fault := Callback(BeforeBar(cfg, synced, bar));
      }
    }

    /** A bar of another day closes the day before it. */
    method TurnDay(day: Option<int>, today: int, ghost w: World) returns (fault: Option<Fault>)
      requires Valid() && session.Shows(w) && Inv(session.cfg, w) && w.fault.None?
      modifies session`pending, session.queue, session.flow.counters, runner, session.broker
      modifies session.broker.orders, session.portfolio, session.portfolio.account, session.portfolio.Repr
      ensures Valid() && fresh(session.portfolio.Repr - old(session.portfolio.Repr)) && session.broker.Grew()
      ensures session.Shows(Turned(session.cfg, w, day, today)) && fault == Turned(session.cfg, w, day, today).fault
    {
      hide Inv, CloseDay, BacktestSession.Valid, BacktestSession.Shows;
      fault := None;
      if day.Some? && day.value != today {
        fault := CloseSession(w);
      }
    }

    /** One turn of the replay. */
    method Turn(day: Option<int>, bar: Candle, ghost w: World) returns (fault: Option<Fault>)
      requires Valid() && session.Shows(w) && Inv(session.cfg, w) && w.fault.None? && bar.Valid()
      requires var next := Turned(session.cfg, w, day, DayOf(bar.ts));
               next.fault.None? ==> Inv(session.cfg, next) && next.now <= bar.ClosesAt()
      modifies session, session.queue, session.flow.counters, runner, session.broker, clock
      modifies session.broker.orders, session.portfolio, session.portfolio.account, session.portfolio.Repr
      modifies session.squareOff
      ensures Valid() && fresh(session.portfolio.Repr - old(session.portfolio.Repr)) && session.broker.Grew()
      ensures var next := Turned(session.cfg, w, day, DayOf(bar.ts));
              var w' := if next.fault.Some? then next else HandleBar(session.cfg, next, bar);
              session.Shows(w') && fault == w'.fault
    {
      hide Inv, HandleBar, Turned, BarReplay.Valid, BacktestSession.Valid, BacktestSession.Shows;
      fault := TurnDay(day, DayOf(bar.ts), w);
      if fault.None? {
        fault := OneBar(bar, Turned(session.cfg, w, day, DayOf(bar.ts)));
      }
    }

    /** That turn, on the `k`th bar, with what the whole run needs to know of it. */
    method Advance(bars: seq<Candle>, k: nat, day: Option<int>, ghost timeframe: Timeframe, ghost w: World)
      returns (fault: Option<Fault>, ghost w': World)
      requires Valid() && session.Shows(w) && k < |bars| && Between(session.cfg, w, day, bars[k..], timeframe)
      modifies session, session.queue, session.flow.counters, runner, session.broker, clock
      modifies session.broker.orders, session.portfolio, session.portfolio.account, session.portfolio.Repr
      modifies session.squareOff
      ensures Valid() && fresh(session.portfolio.Repr - old(session.portfolio.Repr)) && session.broker.Grew()
      ensures session.Shows(w') && fault == w'.fault
      ensures fault.Some? ==> w' == Replay(session.cfg, w, day, bars[k..])
      ensures fault.None? ==>
                var day' := Some(DayOf(bars[k].ts));
                && Between(session.cfg, w', day', bars[k + 1..], timeframe)
                && Replay(session.cfg, w', day', bars[k + 1..]) == Replay(session.cfg, w, day, bars[k..])
    {
      hide Inv, HandleBar, CloseDay, BarReplay.Valid, BacktestSession.Valid, BacktestSession.Shows, Between, Replay,
           Feeds, Turned;
      ValidSession();
      assert bars[k..][0] == bars[k] && bars[k..][1..] == bars[k + 1..];
      ReplayStages(session.cfg, w, day, bars[k..], timeframe);
      fault := Turn(day, bars[k], w);
      ghost var next := Turned(session.cfg, w, day, DayOf(bars[k].ts));
      w' := if next.fault.Some? then next else HandleBar(session.cfg, next, bars[k]);
    }

    /** Replay closed bars: a bar of another day closes the one before, and the last day is closed
        when the bars run out. */
    method Run(bars: seq<Candle>, timeframe: Timeframe, ghost w: World) returns (fault: Option<Fault>)
      requires Valid() && session.Shows(w) && Between(session.cfg, w, None, bars, timeframe)
      modifies session, session.queue, session.flow.counters, runner, session.broker, clock
      modifies session.broker.orders, session.portfolio, session.portfolio.account, session.portfolio.Repr
      modifies session.squareOff
      ensures Valid() && session.Shows(Replay(session.cfg, w, None, bars))
      ensures fault == Replay(session.cfg, w, None, bars).fault
    {
      hide Inv, HandleBar, CloseDay, BarReplay.Valid, BacktestSession.Valid, BacktestSession.Shows, Between, Replay,
           Feeds, Turned;
      ghost var cfg, w' := session.cfg, w;
      ValidSession();
      var day: Option<int> := None;
      for k := 0 to |bars|
        invariant Valid() && session.Shows(w') && Between(cfg, w', day, bars[k..], timeframe)
        invariant fresh(session.portfolio.Repr - old(session.portfolio.Repr)) && session.broker.Grew()
        invariant Replay(cfg, w', day, bars[k..]) == Replay(cfg, w, None, bars)
      {
        fault, w' := Advance(bars, k, day, timeframe, w');
        if fault.Some? {
          return;
        }
        day := Some(DayOf(bars[k].ts));
      }
      assert bars[|bars|..] == [];
      ReplayEnds(cfg, w', day, timeframe);
      fault := None;
      if day.Some? {
        fault := CloseSession(w');
      }
    }

    lemma ValidSession()
      requires Valid()
      ensures session.cfg.Valid()
    {
    }
  }

  function Turned(cfg: Config, w: World, day: Option<int>, today: int): World {
    if day.Some? && day.value != today then CloseDay(cfg, w) else w
  }

  lemma ReplyFrame(cfg: Config, w: World)
    requires cfg.Valid() && Inv(cfg, w)
    ensures var w' := Reply(cfg, w);
            Inv(cfg, w') && w'.book == w.book && Steady(w, w')
  {
    hide Inv, Reply;
    ReplyKeeps(cfg, w);
  }

  lemma NothingCloses(cfg: Config, w: World)
    requires w.fault.Some?
    ensures SessionClosed(cfg, w) == w && EndSession(cfg, w) == w && BeginSession(w) == w
  {
  }

  lemma DayStages(cfg: Config, w: World)
    requires cfg.Valid() && Inv(cfg, w) && w.fault.None?
    ensures var ended := SessionEnding(cfg, w);
            var closed := SessionClosed(cfg, EndSession(cfg, ended));
            && CloseDay(cfg, w) == BeginSession(closed)
            && (ended.fault.Some? ==> CloseDay(cfg, w) == ended)
            && (closed.fault.Some? ==> CloseDay(cfg, w) == closed)
            && (ended.fault.None? ==> Inv(cfg, ended.(listening := false)) && Inv(cfg, EndSession(cfg, ended)))
            && BeginSession(closed).fault == closed.fault
  {
    hide Inv, LedgerNet, SessionEnding, Reply, SessionClosed, Expired, Flat, OwnedShrink, Closable, NoFills;
    SessionEndsFlat(cfg, w);
    var ended := SessionEnding(cfg, w);
    if ended.fault.None? {
      ListeningFree(cfg, ended, false);
      ReplyKeeps(cfg, ended.(listening := false));
    } else {
      NothingCloses(cfg, ended);
    }
  }

  lemma HandleStages(cfg: Config, w: World, bar: Candle)
    requires cfg.Valid() && Inv(cfg, w) && w.fault.None? && bar.Valid() && w.now <= bar.ClosesAt()
    ensures var synced := Synced(w, bar);
            var acted := BeforeBar(cfg, synced, bar);
            && Inv(cfg, synced) && synced.fault.None? && synced.now == bar.ClosesAt() && Inv(cfg, acted)
            && HandleBar(cfg, w, bar) == Hear(cfg, acted)
            && (acted.fault.Some? ==> HandleBar(cfg, w, bar) == acted)
  {
    hide Inv, LedgerNet, BeforeBar, Reply, OwnedShrink, Recorded;
    LaterKeeps(cfg, w, bar.ClosesAt());
    BarKeeps(cfg, Synced(w, bar), bar);
    var acted := BeforeBar(cfg, Synced(w, bar), bar);
    if acted.fault.Some? {
      NoReply(cfg, acted);
    }
  }

  /** One turn of the replay's loop. */
  lemma ReplayStages(cfg: Config, w: World, day: Option<int>, bars: seq<Candle>, timeframe: Timeframe)
    requires cfg.Valid() && Between(cfg, w, day, bars, timeframe) && bars != []
    ensures var today := DayOf(bars[0].ts);
            var next := Turned(cfg, w, day, today);
            var w' := HandleBar(cfg, next, bars[0]);
            && Inv(cfg, w) && w.fault.None? && bars[0].Valid()
            && (next.fault.Some? ==> Replay(cfg, w, day, bars) == next)
            && (next.fault.None? ==>
                  && Inv(cfg, next) && next.now <= bars[0].ClosesAt()
                  && Replay(cfg, w, day, bars) == Replay(cfg, w', Some(today), bars[1..])
                  && (w'.fault.Some? ==> Replay(cfg, w, day, bars) == w')
                  && (w'.fault.None? ==> Between(cfg, w', Some(today), bars[1..], timeframe)))
  {
    hide Inv, LedgerNet, HandleBar, CloseDay, NoFills, CurveOk, Flat, NothingRests, Closable;
    var today := DayOf(bars[0].ts);
    var next := w;
    if day.Some? && day.value != today {
      DayCloses(cfg, w);
      next := CloseDay(cfg, w);
      if next.fault.Some? {
        return;
      }
      CloseKeepsCurve(cfg, w, next);
    }
    HandleStep(cfg, next, bars, timeframe);
  }

  lemma ReplayEnds(cfg: Config, w: World, day: Option<int>, timeframe: Timeframe)
    requires cfg.Valid() && Between(cfg, w, day, [], timeframe)
    ensures Inv(cfg, w) && w.fault.None?
    ensures Replay(cfg, w, day, []) == if day.Some? then CloseDay(cfg, w) else w
  {
    hide Inv;
  }
}
