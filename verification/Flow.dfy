/** The order flow and the settler as objects that share one queue. Each method is handed the world it
    acts in (`w`, ghost) and moves it as `Simulation` says. */
module Flow {
  import opened Basics
  import opened Market
  import opened Clock
  import opened Exchange
  import opened Broker
  import opened Ledger
  import opened Portfolio
  import opened Netting
  import opened Simulation

  class RunCounters {
    var signals: nat
    var gateRejections: nat
    var orders: nat
    var refusedAfterSquareOff: nat
    var squareOffSignals: nat
    var exchangeRejections: nat
    var fills: nat
    var cancelledOrExpired: nat
    var forcedSquareOffs: nat

    constructor ()
      ensures View() == Counters(0, 0, 0, 0, 0, NoTally)
    {
      signals, gateRejections, orders, refusedAfterSquareOff, squareOffSignals := 0, 0, 0, 0, 0;
      exchangeRejections, fills, cancelledOrExpired, forcedSquareOffs := 0, 0, 0, 0;
    }

    function View(): Counters
      reads this
    {
      Counters(signals, gateRejections, orders, refusedAfterSquareOff, squareOffSignals,
               Tally(fills, forcedSquareOffs, exchangeRejections, cancelledOrExpired))
    }

    /** `EventSettler._count`. */
    method Count(e: Event)
      modifies this
      ensures View() == old(View()).(tally := old(View()).tally.Plus(TallyOf(e)))
    {
      if e.fill.Some? {
        fills := fills + 1;
        if e.fill.value.reason.FORCED_SQUARE_OFF? {
          forcedSquareOffs := forcedSquareOffs + 1;
        }
      } else if e.update.status.REJECTED? {
        exchangeRejections := exchangeRejections + 1;
      } else if e.update.status.CANCELLED? {
        cancelledOrExpired := cancelledOrExpired + 1;
      }
    }
  }

  class OrderEventQueue {
    var events: seq<Event>
    ghost var pushed: seq<Event>
    ghost var settled: seq<Event>

    constructor ()
      ensures events == pushed == settled == []
    {
      events, pushed, settled := [], [], [];
    }

    method Push(e: Event)
      modifies this
      ensures events == old(events) + [e] && pushed == old(pushed) + [e] && settled == old(settled)
    {
      events, pushed := events + [e], pushed + [e];
    }

    method Pop() returns (e: Option<Event>)
      modifies this
      ensures pushed == old(pushed)
      ensures old(events) == [] ==> e == None && events == [] && settled == old(settled)
      ensures old(events) != [] ==>
                && e == Some(old(events)[0]) && events == old(events)[1..]
                && settled == old(settled) + [old(events)[0]]
    {
      if events == [] {
        return None;
      }
      e := Some(events[0]);
      events, settled := events[1..], settled + [events[0]];
    }
  }

  /** A plan to close an instrument: what to cancel first, then the exit to send. */
  datatype SquareOffPlan = SquareOffPlan(cancel: seq<nat>, exit: Signal)

  class SessionSquareOff {
    const cfg: Config
    const clock: BarClock
    const portfolio: BacktestPortfolio
    var planned: set<(int, Instrument)>

    constructor (cfg: Config, clock: BarClock, portfolio: BacktestPortfolio)
      ensures this.cfg == cfg && this.clock == clock && this.portfolio == portfolio && planned == {}
    {
      this.cfg, this.clock, this.portfolio, planned := cfg, clock, portfolio, {};
    }

    /** Owned for the day that the clock shows; a signal carries no time of its own here. */
    method Blocks(s: Signal) returns (blocked: bool)
      ensures blocked <==> (DayOf(clock.now), s.instrument) in planned
    {
      return (DayOf(clock.now), s.instrument) in planned;
    }

    /** `instrument_owner`: a constant in a one-strategy run, the book's lookup otherwise. */
    method OwnerFor(i: Instrument) returns (r: Result<RunId, Fault>)
      requires portfolio.Valid()
      ensures r == OwnerOf(cfg, portfolio.View(), i)
    {
      match cfg.owner
      case OneRun(run) => r := Ok(run);
      case WhoeverOpened => r := portfolio.Owner(i);
    }

    /** At most one plan per instrument and day, made once it is late and something is held. */
    method Plan(bar: Candle, net: int, resting: seq<SimOrder>) returns (plan: Option<Result<SquareOffPlan, Fault>>)
      requires portfolio.Valid()
      modifies this
      ensures var key := (DayOf(bar.ClosesAt()), bar.instrument);
              if net == 0 || TimeOfDay(bar.ClosesAt()) < cfg.squareOffAt || key in old(planned) then
                plan == None && planned == old(planned)
              else
                && planned == old(planned) + {key}
                && plan == Some(match OwnerOf(cfg, portfolio.View(), bar.instrument)
                                case Err(f) => Err(f)
                                case Ok(run) =>
                                  var exit := ExitSignal(run, bar, net);
                                  if !exit.Valid() then Err(InvalidSignal(exit))
                                  else Ok(SquareOffPlan(MineAmong(resting, bar.instrument), exit)))
    {
      var key := (DayOf(bar.ClosesAt()), bar.instrument);
      if net == 0 || TimeOfDay(bar.ClosesAt()) < cfg.squareOffAt || key in planned {
        return None;
      }
      planned := planned + {key};
      var owner := OwnerFor(bar.instrument);
      if owner.Err? {
        return Some(Err(owner.error));
      }
      var exit := ExitSignal(owner.value, bar, net);
      if !exit.Valid() {
        return Some(Err(InvalidSignal(exit)));
      }
      return Some(Ok(SquareOffPlan(MineAmong(resting, bar.instrument), exit)));
    }
  }

  /** Of some resting orders, the ids of those in one instrument. */
  function MineAmong(resting: seq<SimOrder>, i: Instrument): seq<nat> {
    if resting == [] then []
    else
      var o := resting[|resting| - 1];
      MineAmong(resting[..|resting| - 1], i) + if o.request.instrument == i then [o.id] else []
  }

  /** Picking an instrument's orders out of all the resting ones gives its own resting list. */
  lemma {:induction false} MineIsResting(resting: seq<SimOrder>, orders: seq<Order>, i: Instrument)
    requires Ids(resting) == Resting(orders, None)
    requires forall o :: o in resting ==> o.id < |orders| && orders[o.id].request == o.request
    ensures MineAmong(resting, i) == Resting(orders, Some(i))
    decreases |orders|
  {
    hide Ids, Resting;
    if orders == [] {
      NoneToPick(resting, i);
    } else {
      var n := |orders| - 1;
      var front := orders[..n];
      assert front + [orders[n]] == orders;
      RestingAppend(front, orders[n], None);
      RestingAppend(front, orders[n], Some(i));
      if RestsIn(orders[n], None) {
        var m := |resting| - 1;
        LastId(resting, Resting(front, None), n);
        Earlier(resting[..m], front);
        MineIsResting(resting[..m], front, i);
      } else {
        Earlier(resting, front);
        MineIsResting(resting, front, i);
      }
    }
  }

  lemma NoneToPick(resting: seq<SimOrder>, i: Instrument)
    requires Ids(resting) == Resting([], None)
    ensures MineAmong(resting, i) == Resting([], Some(i))
  {
    assert |Ids(resting)| == |resting|;
  }

  lemma LastId(resting: seq<SimOrder>, ids: seq<nat>, id: nat)
    requires Ids(resting) == ids + [id]
    ensures resting != [] && Ids(resting[..|resting| - 1]) == ids && resting[|resting| - 1].id == id
  {
    assert |resting| == |ids| + 1;
    assert Ids(resting)[..|ids|] == ids;
  }

  lemma Earlier(resting: seq<SimOrder>, orders: seq<Order>)
    requires Ids(resting) == Resting(orders, None)
    ensures forall o :: o in resting ==> o.id < |orders|
  {
    RestingExactly(orders, None);
    forall o | o in resting ensures o.id < |orders| {
      var k :| 0 <= k < |resting| && resting[k] == o;
      assert Ids(resting)[k] in Resting(orders, None);
    }
  }

  class OrderFlow {
    const cfg: Config
    const broker: SimulatedBroker
    const cutoff: SessionSquareOff
    const queue: OrderEventQueue
    const counters: RunCounters

    constructor (cfg: Config, broker: SimulatedBroker, cutoff: SessionSquareOff, queue: OrderEventQueue,
                 counters: RunCounters)
      ensures this.cfg == cfg && this.broker == broker && this.cutoff == cutoff
      ensures this.queue == queue && this.counters == counters
    {
      this.cfg, this.broker, this.cutoff, this.queue, this.counters := cfg, broker, cutoff, queue, counters;
    }

    ghost predicate Valid()
      reads broker, broker.orders
    {
      && broker.Valid() && broker.model == cfg.model && broker.rejects == cfg.rejects
      && cutoff.clock == broker.clock && cutoff.cfg == cfg
    }

    /** The parts of the world this object can see are as `w` says. */
    ghost predicate Shows(w: World)
      reads broker, broker.orders, broker.clock, queue, counters, cutoff
    {
      && w.x == broker.View() && w.now == broker.clock.now
      && w.queue == queue.events && w.pushed == queue.pushed && w.settled == queue.settled
      && w.counters == counters.View() && w.planned == cutoff.planned
    }

    /** Gate, count, price, build, submit, queue the answer; an order that cannot be built is raised. */
    method RouteSignal(s: Signal, ghost w: World) returns (fault: Option<Fault>)
      requires Valid() && Shows(w) && w.fault.None?
      modifies broker, queue, counters
      ensures Valid() && Shows(Route(cfg, w, s)) && fault == Route(cfg, w, s).fault
      ensures broker.Grew()
    {
      hide Tracks, Exchange.Submit, Request.Valid;
      var verdict := cfg.gate(counters.signals + counters.squareOffSignals, s);
      if verdict.Refuse? {
        counters.gateRejections := counters.gateRejections + 1;
        return None;
      }
      counters.orders := counters.orders + 1;
      var request := RequestFor(cfg, verdict.signal, counters.orders);
      if !request.Valid() {
        return Some(InvalidRequest(request));
      }
      var answer := broker.SubmitOrder(request);
      if answer.Err? {
        return Some(answer.error);
      }
      queue.Push(answer.value);
      return None;
    }

    /** The strategy's sink. */
    method Submit(s: Signal, ghost w: World) returns (fault: Option<Fault>)
      requires Valid() && Shows(w) && w.fault.None?
      modifies broker, queue, counters
      ensures Valid() && Shows(SubmitSignal(cfg, w, s)) && fault == SubmitSignal(cfg, w, s).fault
      ensures broker.Grew()
    {
      hide Tracks, Route;
      counters.signals := counters.signals + 1;
      var blocked := cutoff.Blocks(s);
      if blocked {
        counters.refusedAfterSquareOff := counters.refusedAfterSquareOff + 1;
        return None;
      }
      fault := RouteSignal(s, w.(counters := w.counters.(signals := w.counters.signals + 1)));
    }

    /** The session's own exit: the same route, minus the cutoff. */
    method SubmitBySession(s: Signal, ghost w: World) returns (fault: Option<Fault>)
      requires Valid() && Shows(w) && w.fault.None?
      modifies broker, queue, counters
      ensures Valid() && Shows(SubmitSystem(cfg, w, s)) && fault == SubmitSystem(cfg, w, s).fault
      ensures broker.Grew()
    {
      hide Tracks, Route;
      counters.squareOffSignals := counters.squareOffSignals + 1;
      fault := RouteSignal(s, w.(counters := w.counters.(squareOffSignals := w.counters.squareOffSignals + 1)));
    }
  }

  /** The strategy behind its runner: each callback consumes one entry of the script. */
  class StrategyRunner {
    const flow: OrderFlow
    var script: seq<seq<Signal>>
    var running: bool

    /** A receiver that is not running is told of nothing. */
    constructor (flow: OrderFlow, script: seq<seq<Signal>>, running: bool)
      ensures this.flow == flow && this.script == script && this.running == running
    {
      this.flow, this.script, this.running := flow, script, running;
    }

    ghost predicate Shows(w: World)
      reads this, flow.broker, flow.broker.orders, flow.broker.clock, flow.queue, flow.counters, flow.cutoff
    {
      flow.Shows(w) && w.script == script && w.listening == running
    }

    /** Send everything the strategy answers to this callback; an error on the way ends it. */
    method ForwardSignals(ghost w: World) returns (fault: Option<Fault>)
      requires flow.Valid() && Shows(w) && w.fault.None?
      modifies this`script, flow.broker, flow.queue, flow.counters
      ensures flow.Valid() && Shows(Reply(flow.cfg, w)) && fault == Reply(flow.cfg, w).fault
      ensures flow.broker.Grew()
    {
      hide Tracks, SubmitSignal;
      if script == [] {
        return None;
      }
      ghost var cfg := flow.cfg;
      var signals := script[0];
      script := script[1..];
      ghost var w' := w.(script := script);
      for k := 0 to |signals|
        invariant flow.Valid() && Shows(w') && w'.fault.None?
        invariant SubmitAll(cfg, w', signals[k..]) == Reply(cfg, w)
        invariant flow.broker.Grew()
      {
        SubmitFrame(cfg, w', signals[k]);
        fault := flow.Submit(signals[k], w');
        w' := SubmitSignal(cfg, w', signals[k]);
        if fault.Some? {
          return;
        }
      }
      return None;
    }

    method HandleOrderUpdate(ghost w: World) returns (fault: Option<Fault>)
      requires flow.Valid() && Shows(w) && w.fault.None?
      modifies this`script, flow.broker, flow.queue, flow.counters
      ensures flow.Valid() && Shows(Hear(flow.cfg, w)) && fault == Hear(flow.cfg, w).fault
      ensures flow.broker.Grew()
    {
      fault := None;
      if running {
        fault := ForwardSignals(w);
      }
    }

    /** The day's last callback, after which the strategy hears nothing. */
    method EndSession(ghost w: World) returns (fault: Option<Fault>)
      requires flow.Valid() && Shows(w) && w.fault.None?
      modifies this, flow.broker, flow.queue, flow.counters
      ensures flow.Valid() && Shows(Simulation.EndSession(flow.cfg, w))
      ensures fault == Simulation.EndSession(flow.cfg, w).fault && flow.broker.Grew()
    {
      hide Reply;
      running := false;
      fault := ForwardSignals(w.(listening := false));
    }

    method BeginSession(ghost w: World)
      requires flow.Valid() && Shows(w) && w.fault.None?
      modifies this`running
      ensures flow.Valid() && Shows(Simulation.BeginSession(w))
    {
      running := true;
    }
  }

  /** A signal leaves the strategy's remaining answers and its hearing alone. */
  lemma SubmitFrame(cfg: Config, w: World, s: Signal)
    ensures SubmitSignal(cfg, w, s).script == w.script && SubmitSignal(cfg, w, s).listening == w.listening
  {
  }

  class EventSettler {
    const queue: OrderEventQueue
    const portfolio: BacktestPortfolio
    const receiver: StrategyRunner
    const counters: RunCounters

    constructor (queue: OrderEventQueue, portfolio: BacktestPortfolio, receiver: StrategyRunner,
                 counters: RunCounters)
      ensures this.queue == queue && this.portfolio == portfolio
      ensures this.receiver == receiver && this.counters == counters
    {
      this.queue, this.portfolio, this.receiver, this.counters := queue, portfolio, receiver, counters;
    }

    ghost predicate Valid()
      reads portfolio, receiver.flow.broker, receiver.flow.broker.orders
    {
      && portfolio.Valid() && receiver.flow.Valid()
      && receiver.flow.queue == queue && receiver.flow.counters == counters
    }

    ghost predicate Shows(w: World)
      reads portfolio, portfolio.account, portfolio.Repr, receiver, receiver.flow.broker,
            receiver.flow.broker.orders, receiver.flow.broker.clock, receiver.flow.queue,
            receiver.flow.counters, receiver.flow.cutoff
    {
      receiver.Shows(w) && portfolio.Valid() && w.book == portfolio.View()
    }

    /** Count the oldest event and book its fill. */
    method BookOne(ghost w: World) returns (e: Option<Event>)
      requires Valid() && Shows(w) && receiver.flow.cfg.Valid() && w.fault.None?
      modifies queue, counters, portfolio, portfolio.account, portfolio.Repr
      ensures Valid() && fresh(portfolio.Repr - old(portfolio.Repr))
      ensures e.Some? <==> w.queue != []
      ensures Shows(if e.Some? then PopAndBook(receiver.flow.cfg, w) else w)
    {
      hide Apply, TallyOf, Config.Valid, SimulatedBroker.Valid, SimulatedBroker.View, BacktestPortfolio.Valid,
           BacktestPortfolio.View;
      ChargesAreCharges(receiver.flow.cfg);
      e := queue.Pop();
      if e.None? {
        return;
      }
      counters.Count(e.value);
      ghost var popped := PopAndBook(receiver.flow.cfg, w);
      assert receiver.Shows(popped) && portfolio.View() == w.book;
      if e.value.fill.Some? {
        var fill := e.value.fill.value;
        var booked := portfolio.ApplyFill(fill, receiver.flow.cfg.charges(fill));
      }
      assert portfolio.View() == popped.book;
    }

    /** Deliver the oldest event: book it, and only then tell the strategy, whose answers join the
        queue. */
    method DeliverOne(ghost w: World) returns (delivered: bool, fault: Option<Fault>)
      requires Valid() && Shows(w) && receiver.flow.cfg.Valid() && w.fault.None?
      modifies queue, counters, receiver`script, receiver.flow.broker
      modifies portfolio, portfolio.account, portfolio.Repr
      ensures Valid() && fresh(portfolio.Repr - old(portfolio.Repr)) && receiver.flow.broker.Grew()
      ensures delivered == (w.queue != [])
      ensures var w' := if delivered then Hear(receiver.flow.cfg, PopAndBook(receiver.flow.cfg, w)) else w;
              Shows(w') && fault == w'.fault
    {
      hide Reply, PopAndBook, OrderFlow.Shows, SimulatedBroker.Valid;
      var e := BookOne(w);
      if e.None? {
        return false, None;
      }
      ghost var popped := PopAndBook(receiver.flow.cfg, w);
      PopRuns(receiver.flow.cfg, w);
      HearFrame(receiver.flow.cfg, popped);
      fault := receiver.HandleOrderUpdate(popped);
      return true, fault;
    }

    /** Drain the queue. */
    method SettleAll(ghost w: World) returns (fault: Option<Fault>)
      requires Valid() && Shows(w) && receiver.flow.cfg.Valid() && w.fault.None?
      modifies queue, counters, receiver`script, receiver.flow.broker
      modifies portfolio, portfolio.account, portfolio.Repr
      ensures Valid() && fresh(portfolio.Repr - old(portfolio.Repr)) && receiver.flow.broker.Grew()
      ensures Shows(Settle(receiver.flow.cfg, w)) && fault == Settle(receiver.flow.cfg, w).fault
    {
      hide Hear, PopAndBook, Budget, EventSettler.Valid, EventSettler.Shows;
      ghost var cfg, w' := receiver.flow.cfg, w;
      var more := true;
      fault := None;
      while more && fault.None?
        invariant Valid() && Shows(w') && fault == w'.fault
        invariant Settle(cfg, w') == Settle(cfg, w)
        invariant fresh(portfolio.Repr - old(portfolio.Repr)) && receiver.flow.broker.Grew()
        invariant !more ==> w'.queue == []
        decreases Budget(w'), more
      {
        more, fault := DeliverOne(w');
        if more {
          SettleBudget(cfg, w');
          w' := Hear(cfg, PopAndBook(cfg, w'));
        }
      }
    }
  }

  /** Booking an event stops nothing. */
  lemma PopRuns(cfg: Config, w: World)
    requires w.queue != []
    ensures PopAndBook(cfg, w).fault == w.fault
  {
    hide Apply, TallyOf;
  }

  /** Answering books nothing. */
  lemma HearFrame(cfg: Config, w: World)
    ensures Hear(cfg, w).book == w.book
  {
    hide SubmitAll;
    if w.script != [] {
      SubmitBudget(cfg, w.(script := w.script[1..]), w.script[0]);
    }
  }
}
