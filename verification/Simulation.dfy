/** A whole backtest as a value, and what each step of the session does to it. The strategy is an
    adversary: its replies are an arbitrary finite script, one entry per time it is called back. */
module Simulation {
  import opened Basics
  import opened Market
  import opened FillModel
  import opened Exchange
  import opened Ledger
  import opened Netting

  datatype Verdict = Pass(signal: Signal) | Refuse

  datatype Prices = Prices(limit: real, trigger: Option<real>)

  datatype Ownership = OneRun(run: RunId) | WhoeverOpened

  /** The fixed parts of a run. Gate and rejections are oracles asked once per call number, so any
      behaviour that depends on the account, the book or a generator's state is one of them. */
  datatype Config = Config(
    model: BarFillModel, rejects: (nat, Request) -> Option<string>,
    gate: (nat, Signal) -> Verdict, pricing: Signal -> Prices, charges: Fill -> real,
    squareOffAt: int, penalty: real, owner: Ownership)
  {
    /** Gates may refuse or shrink a signal; charges are charges. Pricing may return anything: an
        order that cannot be built from its prices stops the run. */
    ghost predicate Valid() {
      && model.Valid() && penalty >= 0.0 && (owner.OneRun? ==> owner.run != "")
      && (forall n: nat, s: Signal :: s.Valid() && gate(n, s).Pass? ==>
            var t := gate(n, s).signal;
            && t.Valid() && t.instrument == s.instrument && t.side == s.side && t.quantity <= s.quantity)
      && (forall f: Fill :: charges(f) >= 0.0)
    }
  }

  lemma ChargesAreCharges(cfg: Config)
    requires cfg.Valid()
    ensures forall f :: cfg.charges(f) >= 0.0
  {
  }

  function RequestFor(cfg: Config, s: Signal, n: nat): Request {
    var prices := cfg.pricing(s);
    Request(s.instrument, s.side, s.orderType, s.quantity, prices.limit, BT(n), s.run, prices.trigger)
  }

  datatype Counters = Counters(
    signals: nat, gateRejections: nat, orders: nat, refused: nat, squareOffSignals: nat, tally: Tally)

  /** A matched fill and the bar that made it. */
  datatype Execution = Execution(orderId: nat, bar: Candle)

  /** `pushed` and `settled` record every event queued and every event delivered; `log` and `bars`
      every matched fill and every bar the exchange has seen; `exits` the place in the ledger of the
      session's latest exit in an instrument. `fault` is a raised exception: it ends the run, so
      every step leaves a world with a fault as it is. */
  datatype World = World(
    x: ExchangeState, book: Book, queue: seq<Event>, counters: Counters,
    planned: set<(int, Instrument)>, exits: map<Instrument, nat>, now: int, script: seq<seq<Signal>>, listening: bool,
    pending: Option<int>, fault: Option<Fault>,
    pushed: seq<Event>, settled: seq<Event>, log: seq<Execution>, bars: seq<Candle>)

  function Push(w: World, events: seq<Event>): World {
    w.(queue := w.queue + events, pushed := w.pushed + events)
  }

  // ---- the order flow --------------------------------------------------------------------

  /** Gate, count, price, build, submit, queue the answer. */
  function Route(cfg: Config, w: World, s: Signal): World {
    match cfg.gate(w.counters.signals + w.counters.squareOffSignals, s)
    case Refuse => w.(counters := w.counters.(gateRejections := w.counters.gateRejections + 1))
    case Pass(t) =>
      var n := w.counters.orders + 1;
      var r := RequestFor(cfg, t, n);
      var counted := w.(counters := w.counters.(orders := n));
      if !r.Valid() then counted.(fault := Some(InvalidRequest(r)))
      else
        match Submit(w.x, r, w.now, cfg.rejects(|w.x.orders|, r))
        case Err(f) => counted.(fault := Some(f))
        case Ok((x, e)) => Push(counted.(x := x), [e])
  }

  /** `SessionSquareOff.blocks`: the session already owns this instrument today. */
  predicate Blocked(w: World, i: Instrument) { (DayOf(w.now), i) in w.planned }

  function SubmitSignal(cfg: Config, w: World, s: Signal): World {
    var counted := w.(counters := w.counters.(signals := w.counters.signals + 1));
    if w.fault.Some? then w
    else if Blocked(w, s.instrument) then
      counted.(counters := counted.counters.(refused := counted.counters.refused + 1))
    else Route(cfg, counted, s)
  }

  function SubmitSystem(cfg: Config, w: World, s: Signal): World {
    if w.fault.Some? then w
    else Route(cfg, w.(counters := w.counters.(squareOffSignals := w.counters.squareOffSignals + 1)), s)
  }

  function SubmitAll(cfg: Config, w: World, signals: seq<Signal>): World
    decreases signals
  {
    if signals == [] || w.fault.Some? then w
    else SubmitAll(cfg, SubmitSignal(cfg, w, signals[0]), signals[1..])
  }

  /** One callback: the strategy answers with the next entry of its script. */
  function Reply(cfg: Config, w: World): World {
    if w.script == [] || w.fault.Some? then w else SubmitAll(cfg, w.(script := w.script[1..]), w.script[0])
  }

  function Hear(cfg: Config, w: World): World { if w.listening then Reply(cfg, w) else w }

  // ---- settling --------------------------------------------------------------------------

  /** Pop the oldest event: count it, book its fill; the strategy hears of it only afterwards. */
  function PopAndBook(cfg: Config, w: World): World
    requires w.queue != []
  {
    var e := w.queue[0];
    w.(queue := w.queue[1..], settled := w.settled + [e],
       counters := w.counters.(tally := w.counters.tally.Plus(TallyOf(e))),
       book := if e.fill.Some? then Apply(w.book, e.fill.value, cfg.charges(e.fill.value)) else w.book)
  }

  /** How many events can still be delivered, whatever the strategy answers. */
  function Budget(w: World): nat { |w.queue| + SignalsLeft(w.script) }

  function SignalsLeft(script: seq<seq<Signal>>): nat {
    if script == [] then 0 else |script[0]| + SignalsLeft(script[1..])
  }

  lemma RouteBudget(cfg: Config, w: World, s: Signal)
    ensures |Route(cfg, w, s).queue| <= |w.queue| + 1
    ensures Route(cfg, w, s).script == w.script && Route(cfg, w, s).settled == w.settled
    ensures Route(cfg, w, s).book == w.book
  {
  }

  lemma {:induction false} SubmitBudget(cfg: Config, w: World, signals: seq<Signal>)
    ensures var w' := SubmitAll(cfg, w, signals);
            && |w'.queue| <= |w.queue| + |signals| && w'.script == w.script && w'.settled == w.settled
            && w'.book == w.book
    decreases signals
  {
    if signals != [] {
      hide Route;
      var counted := w.(counters := w.counters.(signals := w.counters.signals + 1));
      RouteBudget(cfg, counted, signals[0]);
      SubmitBudget(cfg, SubmitSignal(cfg, w, signals[0]), signals[1..]);
    }
  }

  lemma SettleBudget(cfg: Config, w: World)
    requires w.queue != []
    ensures Budget(Hear(cfg, PopAndBook(cfg, w))) < Budget(w)
  {
    if w.script != [] {
      SubmitBudget(cfg, PopAndBook(cfg, w).(script := w.script[1..]), w.script[0]);
    }
  }

  /** Drain the queue, including what the strategy's answers add to it. */
  function Settle(cfg: Config, w: World): World
    decreases Budget(w)
  {
    if w.queue == [] || w.fault.Some? then w
    else
      SettleBudget(cfg, w);
      Settle(cfg, Hear(cfg, PopAndBook(cfg, w)))
  }

  // ---- one bar ---------------------------------------------------------------------------

  function Executions(events: seq<Event>, bar: Candle): seq<Execution> {
    if events == [] then []
    else Executions(events[..|events| - 1], bar) + [Execution(events[|events| - 1].orderId, bar)]
  }

  function MatchBar(cfg: Config, w: World, bar: Candle): World {
    var m := Match(w.x, bar, w.now, cfg.model);
    if w.fault.Some? then w
    else Push(w.(x := m.x, log := w.log + Executions(m.events, bar), bars := w.bars + [bar]), m.events)
  }

  function CancelAll(w: World, ids: seq<nat>): World
    decreases ids
  {
    if ids == [] || w.fault.Some? then w
    else
      match Cancel(w.x, ids[0], w.now)
      case Err(f) => w.(fault := Some(f))
      case Ok((x, e)) => CancelAll(Push(w.(x := x), [e]), ids[1..])
  }

  function OwnerOf(cfg: Config, b: Book, i: Instrument): Result<RunId, Fault> {
    match cfg.owner
    case OneRun(run) => Ok(run)
    case WhoeverOpened => if i in b.trips then Ok(b.trips[i].run) else Err(NoOpenRoundTrip)
  }

  predicate DueForSquareOff(cfg: Config, w: World, bar: Candle) {
    && w.book.Net(bar.instrument) != 0
    && TimeOfDay(bar.ClosesAt()) >= cfg.squareOffAt
    && (DayOf(bar.ClosesAt()), bar.instrument) !in w.planned
  }

  function ExitSignal(run: RunId, bar: Candle, net: int): Signal {
    Signal(run, bar.instrument, EXIT, if net > 0 then SELL else BUY, LIMIT, Abs(net), bar.close, None)
  }

  /** Late in the day, once per instrument and day, while something is held: cancel what rests in
      it and send one exit for the whole position. An exit that cannot be built is raised before
      anything is cancelled. */
  function SquareOffIfDue(cfg: Config, w: World, bar: Candle): World {
    if w.fault.Some? || !DueForSquareOff(cfg, w, bar) then w
    else
      var i := bar.instrument;
      match OwnerOf(cfg, w.book, i)
      case Err(f) => Planned(w, bar).(fault := Some(f))
      case Ok(run) =>
        var exit := ExitSignal(run, bar, w.book.Net(i));
        if !exit.Valid() then Planned(w, bar).(fault := Some(InvalidSignal(exit)))
        else Settle(cfg, SubmitSystem(cfg, CancelAll(Planned(w, bar), Resting(w.x.orders, Some(i))), exit))
  }

  /** The session takes the instrument over; the next order accepted is its exit. */
  function Planned(w: World, bar: Candle): World {
    w.(planned := w.planned + {(DayOf(bar.ClosesAt()), bar.instrument)},
       exits := w.exits[bar.instrument := |w.x.orders|])
  }

  function RecordPending(w: World): World {
    if w.pending.None? || w.fault.Some? then w
    else w.(book := RecordPoint(w.book, w.pending.value), pending := None)
  }

  /** The point of an earlier moment is recorded before a later bar. */
  function Recorded(w: World, bar: Candle): World {
    if w.pending.Some? && bar.ClosesAt() > w.pending.value then RecordPending(w) else w
  }

  function Marked(w: World, bar: Candle): World {
    if w.fault.Some? then w
    else
      w.(book := w.book.(marks := w.book.marks[bar.instrument := bar.close]), pending := Some(bar.ClosesAt()))
  }

  /** Everything that happens around one closed bar before the strategy sees it. */
  function BeforeBar(cfg: Config, w: World, bar: Candle): World {
    var answered := Settle(cfg, Recorded(w, bar));
    var traded := Settle(cfg, MatchBar(cfg, answered, bar));
    SquareOffIfDue(cfg, Marked(traded, bar), bar)
  }

  // ---- the end of the day ----------------------------------------------------------------

  function ExpireAll(w: World): World {
    var (x, events) := Expire(w.x, w.now);
    if w.fault.Some? then w else Push(w.(x := x), events)
  }

  /** `ForcedClosePricing.price`: the last price, moved against us and rounded against us. */
  function ForcedPrice(cfg: Config, side: Side, last: real): real {
    if side.BUY? then PaisaUp(Raised(last, cfg.penalty))
    else PaisaDown(Lowered(last, cfg.penalty))
  }

  /** The broker's own square-off of one instrument. */
  function ForceClose(cfg: Config, w: World, i: Instrument): World {
    var net := w.book.Net(i);
    var side := if net > 0 then SELL else BUY;
    if i !in w.book.marks then w.(fault := Some(NoPriceSeen))
    else
      match OwnerOf(cfg, w.book, i)
      case Err(f) => w.(fault := Some(f))
      case Ok(run) =>
        var price := ForcedPrice(cfg, side, w.book.marks[i]);
        match SquareOff(w.x, i, side, Abs(net), price, run, w.now)
        case Err(f) => w.(fault := Some(f))
        case Ok((x, e)) => Push(w.(x := x), [e])
  }

  function ForceAll(cfg: Config, w: World, names: seq<Instrument>): World
    decreases names
  {
    if names == [] || w.fault.Some? then w
    else ForceAll(cfg, ForceClose(cfg, w, names[0]), names[1..])
  }

  /** Unfilled orders expire, then the broker closes whatever is still open. */
  function SessionEnding(cfg: Config, w: World): World {
    var expired := Settle(cfg, ExpireAll(Settle(cfg, w)));
    Settle(cfg, ForceAll(cfg, expired, Open(expired.book, expired.book.listing)))
  }

  /** `StrategyRunner.end_session`: the last word of the day, after which it hears nothing. */
  function EndSession(cfg: Config, w: World): World {
    if w.fault.Some? then w else Reply(cfg, w.(listening := false))
  }

  /** What the strategy sent in its last word cannot rest into tomorrow. */
  function SessionClosed(cfg: Config, w: World): World {
    RecordPending(Settle(cfg, ExpireAll(Settle(cfg, w))))
  }

  function BeginSession(w: World): World { if w.fault.Some? then w else w.(listening := true) }

  // ---- the replay ------------------------------------------------------------------------

  /** One day's end: `BarReplay._close_session`. */
  function CloseDay(cfg: Config, w: World): World {
    BeginSession(SessionClosed(cfg, EndSession(cfg, SessionEnding(cfg, w))))
  }

  function Synced(w: World, bar: Candle): World {
    if w.fault.Some? then w else w.(now := Max(w.now, bar.ClosesAt()))
  }

  /** The clock moves, the session acts, the strategy sees the bar and answers. */
  function HandleBar(cfg: Config, w: World, bar: Candle): World {
    Hear(cfg, BeforeBar(cfg, Synced(w, bar), bar))
  }

  function Replay(cfg: Config, w: World, day: Option<int>, bars: seq<Candle>): World
    decreases bars
  {
    if w.fault.Some? then w
    else if bars == [] then (if day.Some? then CloseDay(cfg, w) else w)
    else
      var bar := bars[0];
      var today := DayOf(bar.ts);
      var w' := if day.Some? && day.value != today then CloseDay(cfg, w) else w;
      if w'.fault.Some? then w'
      else Replay(cfg, HandleBar(cfg, w', bar), Some(today), bars[1..])
  }

  function Start(cash: real, now: int, script: seq<seq<Signal>>): World {
    World(ExchangeState([], {}, 0), EmptyBook(cash), [], Counters(0, 0, 0, 0, 0, NoTally), {}, map[], now,
          script, true, None, None, [], [], [], [])
  }
}
