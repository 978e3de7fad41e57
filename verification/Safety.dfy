/** What every step of a backtest keeps, whatever the strategy answers. */
module Safety {
  import opened Basics
  import opened Market
  import opened FillModel
  import opened Exchange
  import opened Ledger
  import opened Netting
  import opened Simulation
  import opened Lookahead
  import opened ExitOnly

  // ---- why a run may stop ----------------------------------------------------------------

  /** The broker can close this position: its price, moved against us, is still a price. */
  predicate Closable(cfg: Config, b: Book, i: Instrument) {
    i in b.marks && ForcedPrice(cfg, if b.Net(i) > 0 then SELL else BUY, b.marks[i]) > 0.0
  }

  /** The three ways a run can stop: a signal that was valid and passed, but whose prices make no
      order; the session's exit at a close that is no price; a position whose forced price is none. */
  ghost predicate Stopped(cfg: Config, w: World)
    requires w.fault.Some?
  {
    match w.fault.value
    case InvalidRequest(r) =>
      && !r.Valid()
      && (match r.tag
          case BT(n) =>
            && n == w.counters.orders
            && exists k: nat, s: Signal ::
                 s.Valid() && cfg.gate(k, s).Pass? && r == RequestFor(cfg, cfg.gate(k, s).signal, n)
          case SquareOffTag(_) => w.book.Net(r.instrument) != 0 && !Closable(cfg, w.book, r.instrument)
          case Custom(_) => false)
    case InvalidSignal(s) => w.book.Net(s.instrument) != 0 && s.kind.EXIT? && s.limit <= 0.0
    case _ => false
  }

  /** An order already counted but never built. */
  function Dropped(w: World): nat {
    if w.fault.Some? && w.fault.value.InvalidRequest? && w.fault.value.request.tag.BT? then 1 else 0
  }

  // ---- the invariant, in five parts ------------------------------------------------------

  ghost predicate ScriptValid(script: seq<seq<Signal>>) {
    forall k, j :: 0 <= k < |script| && 0 <= j < |script[k]| ==> script[k][j].Valid()
  }

  /** The exchange: consistent orders accepted in the past; a forced trade never rests; no tag in use
      is one the flow or the broker could hand out again. */
  ghost predicate Sound(w: World) {
    && AllConsistent(w.x.orders)
    && (forall k :: 0 <= k < |w.x.orders| ==>
          && w.x.orders[k].acceptedAt <= w.now
          && (w.x.orders[k].IsOpen() ==> !w.x.orders[k].request.tag.SquareOffTag?))
    && (forall t :: t in w.x.tags ==>
          (t.BT? ==> t.n <= w.counters.orders) && (t.SquareOffTag? ==> t.n <= w.x.fills))
  }

  /** The fills among some events, with what each was charged. */
  function BookingsOf(cfg: Config, events: seq<Event>): seq<Booking> {
    if events == [] then []
    else
      var e := events[|events| - 1];
      BookingsOf(cfg, events[..|events| - 1])
      + if e.fill.Some? then [Booking(e.fill.value, cfg.charges(e.fill.value))] else []
  }

  ghost predicate NamesOk(b: Book) {
    && (forall i :: i in b.positions ==> i != "")
    && (forall i :: i in b.trips ==> b.trips[i].run != "")
  }

  /** The money: the ledger is the sum of all events ever queued, the book and the counters the sum
      of those delivered so far, and the queue is exactly the difference, in order. */
  ghost predicate Accounted(cfg: Config, w: World) {
    && w.pushed == w.settled + w.queue
    && FillsBookable(w.pushed)
    && Agrees(w.x, w.pushed)
    && BookOk(w.book, BookingsOf(cfg, w.settled)) && NamesOk(w.book)
    && w.counters.tally == TallyAll(w.settled)
    && |w.x.orders| + Dropped(w) == w.counters.orders + OutcomesOf(w.x.orders).forced
  }

  /** Every signal was refused by the cutoff, refused by the gate, or became an order. */
  ghost predicate Counted(w: World) {
    w.counters.signals + w.counters.squareOffSignals
    == w.counters.refused + w.counters.gateRejections + w.counters.orders
  }

  /** Instruments the session has taken over today hold nothing but its own shrinking exit. */
  ghost predicate Owned(w: World) {
    && (forall p :: p in w.planned ==> p.0 <= DayOf(w.now))
    && (w.fault.None? ==>
          forall i :: Blocked(w, i) ==> i in w.exits && OnlyExit(w.x.orders, i, w.exits[i]))
  }

  /** It holds of running and of stopped worlds; a stopped one has a reason. */
  ghost predicate Inv(cfg: Config, w: World) {
    && (w.fault.Some? ==> Stopped(cfg, w)) && ScriptValid(w.script)
    && Sound(w) && Accounted(cfg, w) && Counted(w) && Owned(w) && Honest(w, cfg.model)
  }

  // ---- what a step leaves alone ----------------------------------------------------------

  /** Neither time, nor the exchange's bars, nor the session's own notes have changed. */
  ghost predicate Steady(w: World, w': World) {
    && w'.now == w.now && w'.planned == w.planned && w'.exits == w.exits
    && w'.log == w.log && w'.bars == w.bars && w'.pending == w.pending && w'.listening == w.listening
  }

  /** No trade, no time, no new bar: only answers were delivered and new orders accepted. */
  ghost predicate Quiet(w: World, w': World) {
    && Steady(w, w')
    && w'.book.curve == w.book.curve && w'.book.startingCash == w.book.startingCash
    && (forall i :: LedgerNet(w'.x.orders, i) == LedgerNet(w.x.orders, i))
    && (!w.listening ==> w'.x == w.x && w'.fault == w.fault)
  }

  ghost predicate NoFills(events: seq<Event>) {
    forall k :: 0 <= k < |events| ==> events[k].fill.None?
  }

  ghost predicate Rests(orders: seq<Order>, i: Instrument) {
    exists k :: 0 <= k < |orders| && RestsIn(orders[k], Some(i))
  }

  /** Instruments the session owns, and in which nothing rests, stay that way. */
  ghost predicate StaysEmpty(w: World, w': World) {
    forall i :: Blocked(w, i) && !Rests(w.x.orders, i) ==> !Rests(w'.x.orders, i)
  }

  // ---- accepting an order ----------------------------------------------------------------

  /** The signal passes the gate, and what pricing makes of it cannot be built. */
  predicate Unbuildable(cfg: Config, w: World, s: Signal) {
    var verdict := cfg.gate(w.counters.signals + w.counters.squareOffSignals, s);
    verdict.Pass? && !RequestFor(cfg, verdict.signal, w.counters.orders + 1).Valid()
  }

  /** For a valid signal that depends on its prices alone: the limit is not positive, it and the trigger are
      the wrong way round, or there is no trigger where one belongs or one where none does. */
  lemma UnbuildableIff(cfg: Config, s: Signal, n: nat)
    ensures var p := cfg.pricing(s);
            !RequestFor(cfg, s, n).Valid() <==>
              || s.instrument == "" || s.run == "" || s.quantity <= 0 || p.limit <= 0.0
              || (s.orderType.LIMIT? && p.trigger.Some?)
              || (s.orderType.STOPLOSS_LIMIT? && (p.trigger.None? || p.trigger.value <= 0.0
                    || (if s.side.SELL? then p.limit > p.trigger.value else p.limit < p.trigger.value)))
  {
  }

  /** A valid signal, counted, on its way to the exchange: in an instrument the session owns it is the
      session's own exit, and nothing rests there. */
  ghost predicate UnderWay(cfg: Config, w: World, s: Signal) {
    && cfg.Valid() && s.Valid() && w.fault.None? && ScriptValid(w.script)
    && Sound(w) && Accounted(cfg, w) && Owned(w) && Honest(w, cfg.model)
    && w.counters.signals + w.counters.squareOffSignals
       == w.counters.refused + w.counters.gateRejections + w.counters.orders + 1
    && (Blocked(w, s.instrument) ==>
          && w.exits[s.instrument] == |w.x.orders|
          && (forall k :: 0 <= k < |w.x.orders| ==> !RestsIn(w.x.orders[k], Some(s.instrument)))
          && LedgerNet(w.x.orders, s.instrument) != 0
          && (s.side.SELL? <==> LedgerNet(w.x.orders, s.instrument) > 0)
          && s.quantity <= Abs(LedgerNet(w.x.orders, s.instrument)))
  }

  /** Nothing traded, and at most one order and one event more. */
  ghost predicate Routed(w: World, w': World, i: Instrument) {
    && w'.script == w.script && w'.book == w.book && w'.settled == w.settled
    && (w'.queue == w.queue || (exists e :: w'.queue == w.queue + [e] && e.fill.None?))
    && (forall j :: LedgerNet(w'.x.orders, j) == LedgerNet(w.x.orders, j))
    && (forall j :: j != i && !Rests(w.x.orders, j) ==> !Rests(w'.x.orders, j))
  }

  lemma RouteKeeps(cfg: Config, w: World, s: Signal)
    requires UnderWay(cfg, w, s)
    ensures var w' := Route(cfg, w, s);
            Inv(cfg, w') && Routed(w, w', s.instrument) && (w'.fault.Some? <==> Unbuildable(cfg, w, s))
  {
    hide Agrees, OnlyExit, LedgerNet, ArmsHonest, LogHonest, MatchedOrders, LogOrders, BookOk, OutcomesOf,
         NamesOk, ScriptValid, BookingsOf, TallyAll, FillsWithinLimits, Closable, Rests;
    var verdict := cfg.gate(w.counters.signals + w.counters.squareOffSignals, s);
    if verdict.Pass? {
      if Unbuildable(cfg, w, s) {
        assert Stopped(cfg, Route(cfg, w, s));
      } else {
        RouteAccepts(cfg, w, s);
      }
    }
  }

  lemma RouteAccepts(cfg: Config, w: World, s: Signal)
    requires UnderWay(cfg, w, s) && !Unbuildable(cfg, w, s)
    requires cfg.gate(w.counters.signals + w.counters.squareOffSignals, s).Pass?
    ensures var w' := Route(cfg, w, s); Inv(cfg, w') && Routed(w, w', s.instrument) && w'.fault.None?
  {
    hide Agrees, OnlyExit, LedgerNet, ArmsHonest, LogHonest, MatchedOrders, LogOrders, BookOk, OutcomesOf,
         NamesOk, ScriptValid, BookingsOf, TallyAll, FillsWithinLimits, Closable, Rests, Route, Says, Unbuildable;
    var o, e := AcceptedOrder(cfg, w, s);
    var x := Route(cfg, w, s).x;
    AgreesAppend(w.x, w.pushed, o, x.tags, x.fills, e);
    OutcomesAppend(w.x.orders, o);
    OrdersAppend(w.x.orders, o, w.log, w.bars, cfg.model);
    Unmatched(w.pushed, e);
    FillsStayWithin(w.x.orders, x.orders, w.pushed, [e]);
    forall i ensures LedgerNet(w.x.orders + [o], i) == LedgerNet(w.x.orders, i) {
      LedgerNetAppend(w.x.orders, o, i);
    }
    forall i | Blocked(w, i) ensures OnlyExit(w.x.orders + [o], i, w.exits[i]) {
      OnlyExitAppend(w.x.orders, o, i, w.exits[i]);
    }
    forall i | i != s.instrument && !Rests(w.x.orders, i) ensures !Rests(w.x.orders + [o], i) {
      RestsElsewhere(w.x.orders, o, i);
    }
  }

  /** The order accepted, or refused by the exchange, and the event that says so. */
  lemma AcceptedOrder(cfg: Config, w: World, s: Signal) returns (o: Order, e: Event)
    requires UnderWay(cfg, w, s) && !Unbuildable(cfg, w, s)
    requires cfg.gate(w.counters.signals + w.counters.squareOffSignals, s).Pass?
    ensures var n := w.counters.orders + 1;
            && Route(cfg, w, s)
               == Push(w.(counters := w.counters.(orders := n),
                          x := ExchangeState(w.x.orders + [o], w.x.tags + {BT(n)}, w.x.fills)), [e])
            && o.Consistent() && o.filled == 0 && o.turnover == 0.0 && o.armedAt.None? && o.acceptedAt == w.now
            && (o.status.WORKING? || o.status.REJECTED?) && o.request.tag == BT(n)
            && o.request.instrument == s.instrument && o.request.side == s.side && o.request.quantity <= s.quantity
            && e.fill.None? && e.orderId == |w.x.orders| && Says(e.update, o) && BT(n) !in w.x.tags
  {
    hide Agrees, OnlyExit, LedgerNet, ArmsHonest, LogHonest, MatchedOrders, LogOrders, BookOk, OutcomesOf,
         NamesOk, ScriptValid, BookingsOf, TallyAll, FillsWithinLimits, AllConsistent;
    var n := w.counters.orders + 1;
    var r := RequestFor(cfg, cfg.gate(w.counters.signals + w.counters.squareOffSignals, s).signal, n);
    var rejection := cfg.rejects(|w.x.orders|, r);
    assert r.tag !in w.x.tags;
    o, e := Accepted(r, w.now, rejection), Submit(w.x, r, w.now, rejection).value.1;
  }

  lemma RestsElsewhere(orders: seq<Order>, o: Order, i: Instrument)
    requires !Rests(orders, i) && o.request.instrument != i
    ensures !Rests(orders + [o], i)
  {
    forall k | 0 <= k < |orders| ensures !RestsIn((orders + [o])[k], Some(i)) {
    }
  }

  lemma SubmitKeeps(cfg: Config, w: World, s: Signal)
    requires cfg.Valid() && s.Valid() && Inv(cfg, w)
    ensures var w' := SubmitSignal(cfg, w, s);
            && Inv(cfg, w') && w'.script == w.script
            && w'.book == w.book && w'.settled == w.settled
            && (NoFills(w.queue) ==> NoFills(w'.queue)) && StaysEmpty(w, w')
            && Steady(w, w')
            && forall i :: LedgerNet(w'.x.orders, i) == LedgerNet(w.x.orders, i)
  {
    hide Agrees, OnlyExit, LedgerNet, ArmsHonest, LogHonest, MatchedOrders, LogOrders, BookOk, OutcomesOf,
         NamesOk, ScriptValid, BookingsOf, TallyAll, AllConsistent, Route, FillsWithinLimits;
    var counted := w.(counters := w.counters.(signals := w.counters.signals + 1));
    if w.fault.None? && !Blocked(w, s.instrument) {
      RouteKeeps(cfg, counted, s);
      RouteFrame(cfg, counted, s);
    }
  }

  /** What becomes of a signal: the cutoff refuses it, the gate refuses it, it stops the run because
      no order can be built from its prices, or exactly one order of at most its size is accepted now
      or refused by the exchange, and one event says so. */
  lemma SignalFate(cfg: Config, w: World, s: Signal)
    requires cfg.Valid() && s.Valid() && Inv(cfg, w) && w.fault.None?
    ensures var w' := SubmitSignal(cfg, w, s);
            var c, c' := w.counters, w'.counters;
            && c'.signals == c.signals + 1 && c'.squareOffSignals == c.squareOffSignals && c'.tally == c.tally
            && (c'.refused == c.refused + 1 <==> Blocked(w, s.instrument))
            && (c'.orders == c.orders + 1
                <==> !Blocked(w, s.instrument) && cfg.gate(c.signals + c.squareOffSignals + 1, s).Pass?)
            && (w'.fault.Some? <==> !Blocked(w, s.instrument)
                                    && Unbuildable(cfg, w.(counters := c.(signals := c.signals + 1)), s))
            && (w'.fault.Some? ==> w'.fault.value.InvalidRequest? && w'.fault.value.request.tag == BT(c'.orders))
            && (w'.fault.Some? || c'.orders == c.orders ==> w'.x == w.x && w'.queue == w.queue)
            && (w'.fault.None? && c'.orders != c.orders ==>
                  && |w'.x.orders| == |w.x.orders| + 1 && w.x.orders <= w'.x.orders
                  && var o := w'.x.orders[|w.x.orders|];
                     && o.request.instrument == s.instrument && o.request.side == s.side
                     && 0 < o.request.quantity <= s.quantity && o.request.tag == BT(c'.orders)
                     && o.acceptedAt == w.now && o.filled == 0 && (o.status.WORKING? || o.status.REJECTED?)
                     && |w'.queue| == |w.queue| + 1 && w.queue <= w'.queue
                     && w'.queue[|w.queue|].orderId == |w.x.orders|
                     && w'.queue[|w.queue|].update.status == o.status)
            && c'.orders <= c.orders + 1
            && c'.refused + c'.gateRejections + c'.orders == c.refused + c.gateRejections + c.orders + 1
  {
    hide Inv;
    FreshTag(cfg, w);
  }

  /** The order a signal becomes: what the gate let pass, at the prices it was given. */
  lemma SignalBecomes(cfg: Config, w: World, s: Signal, t: Signal)
    requires Inv(cfg, w) && w.fault.None? && !Blocked(w, s.instrument)
    requires cfg.gate(w.counters.signals + w.counters.squareOffSignals + 1, s) == Pass(t)
    requires SubmitSignal(cfg, w, s).fault.None?
    ensures var orders, n := SubmitSignal(cfg, w, s).x.orders, |w.x.orders|;
            && |orders| == n + 1
            && orders[n].request == Request(t.instrument, t.side, t.orderType, t.quantity, cfg.pricing(t).limit,
                                            BT(w.counters.orders + 1), t.run, cfg.pricing(t).trigger)
            && orders[n].status == (if cfg.rejects(n, orders[n].request).Some? then REJECTED else WORKING)
            && var queue := SubmitSignal(cfg, w, s).queue;
               queue != [] && queue[|queue| - 1].update.ts == w.now
  {
    hide Inv;
    FreshTag(cfg, w);
  }

  lemma FreshTag(cfg: Config, w: World)
    requires Inv(cfg, w)
    ensures BT(w.counters.orders + 1) !in w.x.tags
  {
  }

  lemma RouteFrame(cfg: Config, w: World, s: Signal)
    ensures var w' := Route(cfg, w, s);
            && Steady(w, w')
            && w'.book == w.book && w'.script == w.script
  {
  }

  lemma {:induction false} SubmitAllKeeps(cfg: Config, w: World, signals: seq<Signal>)
    requires cfg.Valid() && Inv(cfg, w) && forall k :: 0 <= k < |signals| ==> signals[k].Valid()
    ensures var w' := SubmitAll(cfg, w, signals);
            && Inv(cfg, w') && w'.script == w.script
            && w'.book == w.book && w'.settled == w.settled
            && (NoFills(w.queue) ==> NoFills(w'.queue)) && StaysEmpty(w, w')
            && Steady(w, w')
            && forall i :: LedgerNet(w'.x.orders, i) == LedgerNet(w.x.orders, i)
    decreases signals
  {
    hide Inv, LedgerNet, SubmitSignal, NoFills, Rests;
    if signals != [] && w.fault.None? {
      SubmitKeeps(cfg, w, signals[0]);
      SubmitAllKeeps(cfg, SubmitSignal(cfg, w, signals[0]), signals[1..]);
    }
  }

  /** Every answer is submitted: each one counts as a signal, up to the one that stops the run. */
  lemma {:induction false} AnswersAreSubmitted(cfg: Config, w: World, signals: seq<Signal>)
    requires cfg.Valid() && Inv(cfg, w) && w.fault.None?
    requires forall k :: 0 <= k < |signals| ==> signals[k].Valid()
    ensures var w' := SubmitAll(cfg, w, signals);
            && (w'.fault.None? ==> w'.counters.signals == w.counters.signals + |signals|)
            && (w'.fault.Some? ==> w.counters.signals < w'.counters.signals <= w.counters.signals + |signals|)
    decreases signals
  {
    hide Inv, SubmitSignal, Unbuildable, LedgerNet;
    if signals != [] {
      SignalFate(cfg, w, signals[0]);
      SubmitKeeps(cfg, w, signals[0]);
      var w1 := SubmitSignal(cfg, w, signals[0]);
      if w1.fault.None? {
        AnswersAreSubmitted(cfg, w1, signals[1..]);
      } else {
        assert SubmitAll(cfg, w1, signals[1..]) == w1;
      }
    }
  }

  /** One callback takes one entry of the script and submits all of it. */
  lemma RepliesInFull(cfg: Config, w: World)
    requires cfg.Valid() && Inv(cfg, w) && w.fault.None? && w.script != []
    ensures var w' := Reply(cfg, w);
            && w'.script == w.script[1..]
            && (w'.fault.None? ==> w'.counters.signals == w.counters.signals + |w.script[0]|)
  {
    hide Inv, SubmitAll;
    ScriptStep(cfg, w);
    AnswersAreSubmitted(cfg, w.(script := w.script[1..]), w.script[0]);
    SubmitBudget(cfg, w.(script := w.script[1..]), w.script[0]);
  }

  /** This signal would stop the run. */
  predicate WouldStop(cfg: Config, w: World, s: Signal) {
    && w.fault.None? && !Blocked(w, s.instrument)
    && Unbuildable(cfg, w.(counters := w.counters.(signals := w.counters.signals + 1)), s)
  }

  /** Answers stop the run exactly when one of them, at its turn, makes an order that cannot be built. */
  lemma {:induction false} AnswersStopIff(cfg: Config, w: World, signals: seq<Signal>)
    requires cfg.Valid() && Inv(cfg, w) && w.fault.None?
    requires forall k :: 0 <= k < |signals| ==> signals[k].Valid()
    ensures SubmitAll(cfg, w, signals).fault.Some? <==>
              exists k :: 0 <= k < |signals| && WouldStop(cfg, SubmitAll(cfg, w, signals[..k]), signals[k])
    decreases signals
  {
    hide Inv, SubmitSignal, Unbuildable, LedgerNet;
    if signals != [] {
      var first, rest := signals[0], signals[1..];
      var w1 := SubmitSignal(cfg, w, first);
      SignalFate(cfg, w, first);
      SubmitKeeps(cfg, w, first);
      assert signals[..0] == [];
      assert w1.fault.Some? <==> WouldStop(cfg, SubmitAll(cfg, w, signals[..0]), first);
      if w1.fault.None? {
        AnswersStopIff(cfg, w1, rest);
        forall k | 0 <= k < |rest|
          ensures SubmitAll(cfg, w, signals[..k + 1]) == SubmitAll(cfg, w1, rest[..k]) && signals[k + 1] == rest[k]
        {
          assert signals[..k + 1][1..] == rest[..k];
        }
      }
    }
  }

  lemma ScriptStep(cfg: Config, w: World)
    requires Inv(cfg, w) && w.script != []
    ensures Inv(cfg, w.(script := w.script[1..]))
    ensures forall k :: 0 <= k < |w.script[0]| ==> w.script[0][k].Valid()
  {
    hide Agrees, OnlyExit, LedgerNet, ArmsHonest, LogHonest, MatchedOrders, LogOrders, BookOk, OutcomesOf,
         NamesOk, BookingsOf, TallyAll, AllConsistent, FillsWithinLimits, Closable;
  }

  /** However the strategy answers a callback, the invariant holds and nothing has traded. */
  lemma ReplyKeeps(cfg: Config, w: World)
    requires cfg.Valid() && Inv(cfg, w)
    ensures var w' := Reply(cfg, w);
            && Inv(cfg, w') && w'.book == w.book && w'.settled == w.settled
            && (NoFills(w.queue) ==> NoFills(w'.queue)) && StaysEmpty(w, w')
            && (forall i :: LedgerNet(w'.x.orders, i) == LedgerNet(w.x.orders, i))
            && Steady(w, w')
  {
    hide Inv, LedgerNet, SubmitAll, NoFills, Rests;
    if w.script != [] && w.fault.None? {
      ScriptStep(cfg, w);
      SubmitAllKeeps(cfg, w.(script := w.script[1..]), w.script[0]);
    }
  }

  lemma HearKeeps(cfg: Config, w: World)
    requires cfg.Valid() && Inv(cfg, w)
    ensures Inv(cfg, Hear(cfg, w)) && Hear(cfg, w).book == w.book
  {
    hide Inv, Reply;
    ReplyKeeps(cfg, w);
  }

  // ---- delivering an event ---------------------------------------------------------------

  /** The oldest event is counted and its fill booked: the book again equals what was delivered. */
  lemma PopKeeps(cfg: Config, w: World)
    requires cfg.Valid() && Inv(cfg, w) && w.queue != [] && w.fault.None?
    ensures Inv(cfg, PopAndBook(cfg, w)) && PopAndBook(cfg, w).fault.None?
    ensures NoFills(w.queue) ==> NoFills(PopAndBook(cfg, w).queue) && PopAndBook(cfg, w).book == w.book
  {
    hide Agrees, OnlyExit, LedgerNet, ArmsHonest, LogHonest, MatchedOrders, LogOrders, BookOk, OutcomesOf,
         AllConsistent, ScriptValid, TallyOf, Apply, NamesOk, FillsWithinLimits;
    var e, w' := w.queue[0], PopAndBook(cfg, w);
    assert w.queue == [e] + w.queue[1..];
    assert w.settled + w.queue == w'.settled + w'.queue;
    assert w'.settled[..|w.settled|] == w.settled;
    assert w.pushed[|w.settled|] == e;
    if e.fill.Some? {
      var f := e.fill.value;
      ApplyKeepsBook(w.book, BookingsOf(cfg, w.settled), f, cfg.charges(f));
      ApplyKeepsNames(w.book, f, cfg.charges(f));
    }
    BookingsStep(cfg, w.settled, e);
  }

  lemma BookingsStep(cfg: Config, events: seq<Event>, e: Event)
    ensures e.fill.None? ==> BookingsOf(cfg, events + [e]) == BookingsOf(cfg, events)
    ensures e.fill.Some? ==>
              BookingsOf(cfg, events + [e])
              == BookingsOf(cfg, events) + [Booking(e.fill.value, cfg.charges(e.fill.value))]
  {
    assert (events + [e])[..|events|] == events;
  }

  lemma ApplyKeepsNames(b: Book, f: Fill, charges: real)
    requires NamesOk(b) && Bookable(f)
    ensures var b' := Apply(b, f, charges);
            NamesOk(b') && b'.curve == b.curve && b'.startingCash == b.startingCash
  {
    hide Booked;
  }

  /** Settling ends with everything delivered, the invariant kept, and nothing traded meanwhile. */
  lemma {:induction false} SettleKeeps(cfg: Config, w: World)
    requires cfg.Valid() && Inv(cfg, w)
    ensures var w' := Settle(cfg, w);
            && Inv(cfg, w') && (w'.fault.None? ==> w'.queue == []) && Quiet(w, w') && StaysEmpty(w, w')
            && (NoFills(w.queue) ==> w'.book == w.book)
    decreases Budget(w)
  {
    hide Inv, LedgerNet, NoFills, Apply, Reply, TallyOf, Budget, Rests;
    if w.queue != [] && w.fault.None? {
      PopKeeps(cfg, w);
      PopFrame(cfg, w);
      SettleBudget(cfg, w);
      var popped := PopAndBook(cfg, w);
      if w.listening {
        ReplyKeeps(cfg, popped);
      }
      SettleKeeps(cfg, Hear(cfg, popped));
    }
  }

  lemma PopFrame(cfg: Config, w: World)
    requires w.queue != []
    ensures var w' := PopAndBook(cfg, w);
            w'.book.curve == w.book.curve && w'.book.startingCash == w.book.startingCash
  {
  }

  // ---- the agreement of book and exchange ------------------------------------------------

  lemma {:induction false} BookingsAddUp(cfg: Config, events: seq<Event>, i: Instrument)
    ensures NetOf(BookingsOf(cfg, events), i) == EventNet(events, i)
  {
    if events != [] {
      var n := |events| - 1;
      BookingsAddUp(cfg, events[..n], i);
      var e, front := events[n], BookingsOf(cfg, events[..n]);
      if e.fill.Some? {
        var b := Booking(e.fill.value, cfg.charges(e.fill.value));
        assert (front + [b])[..|front|] == front;
      } else {
        assert front + [] == front;
      }
    }
  }

  /** Whenever nothing is queued, the book holds exactly what the exchange filled. */
  lemma BookAgrees(cfg: Config, w: World, i: Instrument)
    requires Inv(cfg, w) && w.queue == []
    ensures w.book.Net(i) == LedgerNet(w.x.orders, i)
  {
    BookingsAddUp(cfg, w.settled, i);
    assert w.pushed == w.settled;
    assert InstrumentOk(w.book, BookingsOf(cfg, w.settled), i);
  }

  // ---- a bar trades ----------------------------------------------------------------------

  lemma MatchKeeps(cfg: Config, w: World, bar: Candle)
    requires cfg.Valid() && Inv(cfg, w)
    ensures var w' := MatchBar(cfg, w, bar);
            && Inv(cfg, w')
            && w'.fault == w.fault
            && forall i :: Blocked(w, i) ==> Shrinks(LedgerNet(w.x.orders, i), LedgerNet(w'.x.orders, i))
  {
    if w.fault.None? {
      MatchRunning(cfg, w, bar);
    } else {
      Still(w);
    }
  }

  lemma Still(w: World)
    ensures forall i :: Shrinks(LedgerNet(w.x.orders, i), LedgerNet(w.x.orders, i))
  {
    hide LedgerNet;
  }

  lemma MatchRunning(cfg: Config, w: World, bar: Candle)
    requires cfg.Valid() && Inv(cfg, w) && w.fault.None?
    ensures var w' := MatchBar(cfg, w, bar);
            && Inv(cfg, w')
            && forall i :: Blocked(w, i) ==> Shrinks(LedgerNet(w.x.orders, i), LedgerNet(w'.x.orders, i))
  {
    hide Agrees, OnlyExit, LedgerNet, ArmsHonest, LogHonest, MatchedOrders, LogOrders, BookOk, OutcomesOf,
         NamesOk, ScriptValid, BookingsOf, TallyAll, MatchUpTo, BarFillModel.Capacity, Shrinks, Executions,
         FillsWithinLimits, Closable;
    var x, capacity, now := w.x, cfg.model.Capacity(bar), w.now;
    var m := Match(x, bar, now, cfg.model);
    var n := |x.orders|;
    CapacityWithinVolume(cfg.model, bar);
    CapacityLeft(x, bar, now, cfg.model, capacity, n);
    MatchFrame(x, bar, now, cfg.model, capacity, n);
    AgreesMatch(x, w.pushed, bar, now, cfg.model, capacity, n);
    ForcedByRequest(x.orders, m.x.orders);
    MoreBars(x.orders, w.log, w.bars, bar, cfg.model);
    MatchHonest(x, bar, now, cfg.model, capacity, n, w.log, w.bars + [bar], w.pushed);
    MatchWithinLimits(x, bar, now, cfg.model, capacity, n);
    FillsStayWithin(x.orders, m.x.orders, w.pushed, m.events);
    forall i | Blocked(w, i)
      ensures OnlyExit(m.x.orders, i, w.exits[i]) && Shrinks(LedgerNet(x.orders, i), LedgerNet(m.x.orders, i))
    {
      MatchShrinks(x, bar, now, cfg.model, capacity, n, i, w.exits[i]);
    }
    assert w.settled + w.queue + m.events == w.settled + (w.queue + m.events);
  }

  // ---- orders stop resting ---------------------------------------------------------------

  lemma ExpireKeeps(cfg: Config, w: World)
    requires cfg.Valid() && Inv(cfg, w)
    ensures var w' := ExpireAll(w);
            && Inv(cfg, w') && Quiet(w.(listening := true), w'.(listening := true))
            && w'.book == w.book && w'.listening == w.listening && w'.fault == w.fault
            && (NoFills(w.queue) ==> NoFills(w'.queue))
            && (w.fault.None? ==> forall k :: 0 <= k < |w'.x.orders| ==> !w'.x.orders[k].IsOpen())
  {
    if w.fault.None? {
      ExpireRunning(cfg, w);
    }
  }

  lemma ExpireRunning(cfg: Config, w: World)
    requires cfg.Valid() && Inv(cfg, w) && w.fault.None?
    ensures var w' := ExpireAll(w);
            && Inv(cfg, w') && Quiet(w.(listening := true), w'.(listening := true))
            && (NoFills(w.queue) ==> NoFills(w'.queue))
            && forall k :: 0 <= k < |w'.x.orders| ==> !w'.x.orders[k].IsOpen()
  {
    hide Agrees, OnlyExit, LedgerNet, ArmsHonest, LogHonest, MatchedOrders, LogOrders, BookOk, OutcomesOf,
         NamesOk, ScriptValid, BookingsOf, TallyAll, ExpireUpTo, FillsWithinLimits, Closable;
    var (x, events) := Expire(w.x, w.now);
    var n := |w.x.orders|;
    ExpireFrame(w.x, w.now, n);
    AgreesExpire(w.x, w.pushed, w.now, n);
    ExpireEvents(w.x, w.now, n);
    ForcedByRequest(w.x.orders, x.orders);
    ExpireHonest(w.x, w.now, n, w.log, w.bars, cfg.model);
    UnmatchedAll(w.pushed, events);
    FillsStayWithin(w.x.orders, x.orders, w.pushed, events);
    forall i ensures LedgerNet(x.orders, i) == LedgerNet(w.x.orders, i) {
      ExpireKeepsExit(w.x, w.now, n, i, 0);
    }
    forall i | Blocked(w, i) ensures OnlyExit(x.orders, i, w.exits[i]) {
      ExpireKeepsExit(w.x, w.now, n, i, w.exits[i]);
    }
    assert w.settled + w.queue + events == w.settled + (w.queue + events);
  }

  lemma {:induction false} ExpireEvents(x: ExchangeState, now: int, k: nat)
    requires k <= |x.orders|
    ensures NoFills(ExpireUpTo(x, now, k).1)
  {
    if k != 0 {
      ExpireEvents(x, now, k - 1);
    }
  }

  /** Cancelling one resting order. */
  lemma CancelKeeps(cfg: Config, w: World, id: nat)
    requires cfg.Valid() && Inv(cfg, w) && w.fault.None? && id < |w.x.orders| && w.x.orders[id].IsOpen()
    ensures var w' := CancelAll(w, [id]);
            && Inv(cfg, w') && Quiet(w.(listening := true), w'.(listening := true))
            && w'.book == w.book && w'.listening == w.listening && w'.script == w.script && w'.fault.None?
            && w'.counters == w.counters
            && w'.x.orders == w.x.orders[id := Cancelled(w.x.orders[id])]
            && (NoFills(w.queue) ==> NoFills(w'.queue))
  {
    hide Agrees, OnlyExit, LedgerNet, ArmsHonest, LogHonest, MatchedOrders, LogOrders, BookOk, OutcomesOf,
         NamesOk, ScriptValid, BookingsOf, TallyAll, FillsWithinLimits, Closable, Says, CancelAll;
    var o, e := OneCancelled(w, id);
    var x := w.x.(orders := w.x.orders[id := o]);
    AgreesStep(w.x, w.pushed, id, o, w.x.fills, e);
    ForcedByRequest(w.x.orders, x.orders);
    OrderChanged(w.x.orders, id, o, w.log, w.bars, cfg.model);
    Unmatched(w.pushed, e);
    FillsStayWithin(w.x.orders, x.orders, w.pushed, [e]);
    forall i ensures LedgerNet(x.orders, i) == LedgerNet(w.x.orders, i) {
      LedgerNetUpdate(w.x.orders, id, o, i);
    }
    forall i | Blocked(w, i) ensures OnlyExit(x.orders, i, w.exits[i]) {
      OnlyExitClosed(w.x.orders, id, o, i, w.exits[i]);
    }
    assert w.settled + w.queue + [e] == w.settled + (w.queue + [e]);
  }

  /** One order stops resting, and the event that says so. */
  lemma OneCancelled(w: World, id: nat) returns (o: Order, e: Event)
    requires w.fault.None? && id < |w.x.orders| && w.x.orders[id].IsOpen()
    ensures o == Cancelled(w.x.orders[id])
    ensures CancelAll(w, [id]) == Push(w.(x := w.x.(orders := w.x.orders[id := o])), [e])
    ensures e.orderId == id && e.fill.None? && Says(e.update, o)
  {
    o, e := Cancelled(w.x.orders[id]), Cancel(w.x, id, w.now).value.1;
    assert [id][1..] == [];
  }
}
