/** The trades that close a position, told by the position and the prices alone: the exit the session sends
    late in the day, and the broker's own forced trade at its end. */
module ClosingTrades {
  import opened Basics
  import opened Market
  import opened FillModel
  import opened Exchange
  import opened Ledger
  import opened Netting
  import opened Simulation
  import opened Lookahead
  import opened ExitOnly
  import opened Safety
  import opened SessionSafety

  // ---- answers only add orders -----------------------------------------------------------

  /** Orders are only added, and none of them is the session's own. */
  ghost predicate Adds(w: World, w': World) {
    && w.x.orders <= w'.x.orders
    && w'.counters.squareOffSignals == w.counters.squareOffSignals && w'.exits == w.exits
  }

  lemma SubmitAdds(cfg: Config, w: World, s: Signal)
    ensures Adds(w, SubmitSignal(cfg, w, s))
  {
  }

  lemma {:induction false} AnswersAdd(cfg: Config, w: World, signals: seq<Signal>)
    ensures Adds(w, SubmitAll(cfg, w, signals))
    decreases signals
  {
    hide SubmitSignal;
    if signals != [] && w.fault.None? {
      SubmitAdds(cfg, w, signals[0]);
      AnswersAdd(cfg, SubmitSignal(cfg, w, signals[0]), signals[1..]);
    }
  }

  /** Settling changes no order there is; answers may add some. */
  lemma {:induction false} SettleAdds(cfg: Config, w: World)
    ensures Adds(w, Settle(cfg, w))
    decreases Budget(w)
  {
    hide SubmitAll, Apply, TallyOf, Budget;
    if w.queue != [] && w.fault.None? {
      SettleBudget(cfg, w);
      var popped := PopAndBook(cfg, w);
      if w.listening && w.script != [] {
        AnswersAdd(cfg, popped.(script := popped.script[1..]), popped.script[0]);
      }
      SettleAdds(cfg, Hear(cfg, popped));
    }
  }

  lemma {:induction false} CancelsCountNothing(w: World, ids: seq<nat>)
    ensures CancelAll(w, ids).counters == w.counters && |CancelAll(w, ids).x.orders| == |w.x.orders|
    ensures CancelAll(w, ids).now == w.now
    decreases ids
  {
    if ids != [] && w.fault.None? {
      var c := Cancel(w.x, ids[0], w.now);
      if c.Ok? {
        CancelsCountNothing(Push(w.(x := c.value.0), [c.value.1]), ids[1..]);
      }
    }
  }

  // ---- the session's exit ----------------------------------------------------------------

  /** After the square-off time of the Indian day, with something held and no plan made yet that day. */
  predicate TimeToLeave(cfg: Config, w: World, bar: Candle) {
    var close := bar.ts + bar.timeframe.Duration() + 19_800_000_000;
    && w.book.Net(bar.instrument) != 0
    && close % 86_400_000_000 >= cfg.squareOffAt
    && (close / 86_400_000_000, bar.instrument) !in w.planned
  }

  /** An order for the whole position, the other way, at the bar's close, in the name of its owner. */
  ghost predicate WholeExit(cfg: Config, w: World, bar: Candle, exit: Signal) {
    var i := bar.instrument;
    && exit.instrument == i && exit.kind == EXIT && exit.orderType == LIMIT && exit.trigger == None
    && exit.quantity > 0 && w.book.Net(i) + (if exit.side == BUY then exit.quantity else -exit.quantity) == 0
    && exit.limit == bar.close
    && match cfg.owner
       case OneRun(run) => exit.run == run
       case WhoeverOpened => i in w.book.trips && exit.run == w.book.trips[i].run
  }

  /** When it is time, and only then, the session cancels what rests in the instrument and sends one exit
      that closes the position exactly; at a close that is no price there is no such exit, and the run
      stops. */
  lemma SquareOffSends(cfg: Config, w: World, bar: Candle) returns (exit: Signal)
    requires cfg.Valid() && Inv(cfg, w) && w.fault.None? && w.queue == [] && w.now == bar.ClosesAt()
    ensures var w' := SquareOffIfDue(cfg, w, bar);
            if !TimeToLeave(cfg, w, bar) then w' == w
            else
              && WholeExit(cfg, w, bar, exit)
              && (bar.close <= 0.0 ==> w'.fault == Some(InvalidSignal(exit)) && w'.x == w.x && w'.queue == [])
              && (bar.close > 0.0 ==>
                    w' == Settle(cfg, SubmitSystem(cfg, Cleared(w, bar), exit)))
              && w'.counters.squareOffSignals == w.counters.squareOffSignals + if bar.close > 0.0 then 1 else 0
  {
    hide Inv, Settle, CancelAll, Resting;
    if TimeToLeave(cfg, w, bar) {
      OwnerKnown(cfg, w, bar.instrument);
      ExitFate(cfg, w, bar);
      exit := Exit(cfg, w, bar);
      if bar.close > 0.0 {
        CancelsCountNothing(Planned(w, bar), Resting(w.x.orders, Some(bar.instrument)));
        SystemCounted(cfg, Cleared(w, bar), exit);
        SettleAdds(cfg, SubmitSystem(cfg, Cleared(w, bar), exit));
      }
    } else {
      exit := Signal("", "", EXIT, SELL, LIMIT, 0, 0.0, None);
    }
  }

  /** Before the exit goes out, every order still working in the instrument is cancelled, and no other order
      changes. */
  lemma CancelsWhatRests(cfg: Config, w: World, bar: Candle)
    requires cfg.Valid() && Inv(cfg, w) && w.fault.None? && w.queue == [] && w.now == bar.ClosesAt()
    requires TimeToLeave(cfg, w, bar) && bar.close > 0.0
    ensures var orders := SquareOffIfDue(cfg, w, bar).x.orders;
            && |w.x.orders| <= |orders|
            && forall k :: 0 <= k < |w.x.orders| ==>
                 var o := w.x.orders[k];
                 orders[k] == if o.request.instrument == bar.instrument
                                 && (o.status == WORKING || o.status == PARTIALLY_FILLED)
                              then o.(status := CANCELLED) else o
  {
    hide Inv, Settle, CancelAll, Resting, SubmitSystem, SquareOffIfDue;
    var exit := SquareOffSends(cfg, w, bar);
    var c := Cleared(w, bar);
    ClearedOrders(cfg, w, bar);
    SystemAppends(cfg, c, exit);
    SettleAdds(cfg, SubmitSystem(cfg, c, exit));
  }

  lemma SystemAppends(cfg: Config, w: World, s: Signal)
    ensures w.x.orders <= SubmitSystem(cfg, w, s).x.orders
  {
  }

  lemma ClearedOrders(cfg: Config, w: World, bar: Candle)
    requires cfg.Valid() && Inv(cfg, w) && w.fault.None?
    ensures var orders := Cleared(w, bar).x.orders;
            && |orders| == |w.x.orders|
            && forall k :: 0 <= k < |w.x.orders| ==>
                 orders[k] == if RestsIn(w.x.orders[k], Some(bar.instrument)) then Cancelled(w.x.orders[k])
                              else w.x.orders[k]
  {
    hide Inv, CancelAll, Resting;
    var ids := Resting(w.x.orders, Some(bar.instrument));
    RestingExactly(w.x.orders, Some(bar.instrument));
    assert forall k :: 0 <= k < |ids| ==> ids[k] in ids;
    CancelAllKeeps(cfg, w, ids);
    CancelIgnoresPlan(w, ids, Planned(w, bar).planned, Planned(w, bar).exits);
  }

  lemma SystemCounted(cfg: Config, w: World, s: Signal)
    requires w.fault.None?
    ensures SubmitSystem(cfg, w, s).counters.squareOffSignals == w.counters.squareOffSignals + 1
  {
  }

  /** The exit as it came to the exchange: when the gate lets it pass unchanged and an order can be made of
      it, the order the session remembers closes the position exactly, and nothing else rests there but
      what that order leaves. */
  lemma ExitClosesExactly(cfg: Config, w: World, bar: Candle, exit: Signal)
    requires cfg.Valid() && Inv(cfg, w) && w.fault.None? && w.queue == [] && w.now == bar.ClosesAt()
    requires TimeToLeave(cfg, w, bar) && bar.close > 0.0 && WholeExit(cfg, w, bar, exit)
    requires cfg.gate(w.counters.signals + w.counters.squareOffSignals + 1, exit) == Pass(exit)
    requires RequestFor(cfg, exit, w.counters.orders + 1).Valid()
    ensures var w', i := SquareOffIfDue(cfg, w, bar), bar.instrument;
            && i in w'.exits && w'.exits[i] < |w'.x.orders|
            && var o := w'.x.orders[w'.exits[i]];
               && o.request.instrument == i && o.request.side == exit.side && o.request.quantity == exit.quantity
               && o.request.orderType == LIMIT && o.request.run == exit.run
               && o.request.limit == cfg.pricing(exit).limit
               && LedgerNet(w.x.orders, i) + o.request.side.Sign() * o.request.quantity == 0
               && o.acceptedAt == w.now && o.filled == 0 && (o.status == WORKING || o.status == REJECTED)
               && (w'.fault.None? ==> OnlyExit(w'.x.orders, i, w'.exits[i]))
  {
    hide Inv, Settle, CancelAll, Resting, OnlyExit, LedgerNet;
    var sent := SquareOffSends(cfg, w, bar);
    assert sent == exit;
    var c := Cleared(w, bar);
    CancelsCountNothing(Planned(w, bar), Resting(w.x.orders, Some(bar.instrument)));
    ExitFate(cfg, w, bar);
    FreshTag(cfg, c);
    ExitAccepted(cfg, c, exit);
    SettleAdds(cfg, SubmitSystem(cfg, c, exit));
    BookAgrees(cfg, w, bar.instrument);
    SquareOffKeeps(cfg, w, bar);
    if SquareOffIfDue(cfg, w, bar).fault.None? {
      OwnedHasExit(cfg, SquareOffIfDue(cfg, w, bar), bar.instrument);
    }
  }

  lemma OwnedHasExit(cfg: Config, w: World, i: Instrument)
    requires Inv(cfg, w) && w.fault.None? && Blocked(w, i)
    ensures i in w.exits && OnlyExit(w.x.orders, i, w.exits[i])
  {
  }

  lemma ExitAccepted(cfg: Config, w: World, s: Signal)
    requires w.fault.None? && BT(w.counters.orders + 1) !in w.x.tags
    requires cfg.gate(w.counters.signals + w.counters.squareOffSignals + 1, s) == Pass(s)
    requires RequestFor(cfg, s, w.counters.orders + 1).Valid()
    ensures var w' := SubmitSystem(cfg, w, s);
            && |w'.x.orders| == |w.x.orders| + 1 && w'.exits == w.exits
            && var o := w'.x.orders[|w.x.orders|];
               && o.request == RequestFor(cfg, s, w.counters.orders + 1)
               && o.acceptedAt == w.now && o.filled == 0 && (o.status == WORKING || o.status == REJECTED)
  {
  }

  // ---- the broker's forced trade ---------------------------------------------------------

  /** The price of a forced trade: the last price moved against us by the penalty, in hundredths of a
      percent, and on to the next whole paisa. */
  ghost predicate Penalised(cfg: Config, buys: bool, mark: real, price: real) {
    if buys then PaisaAbove(price, mark * (1.0 + cfg.penalty / 10_000.0))
    else PaisaBelow(price, mark * (1.0 - cfg.penalty / 10_000.0))
  }

  /** A forced trade closes the whole position at once, now, at its penalised last price, in its owner's
      name; if that price is not positive, there is no trade and the run stops. */
  lemma ForcedTradeIs(cfg: Config, w: World, i: Instrument, price: real)
    requires cfg.Valid() && Inv(cfg, w) && w.fault.None? && w.book.Net(i) != 0
    requires i in w.book.marks ==> Penalised(cfg, w.book.Net(i) < 0, w.book.marks[i], price)
    ensures var w' := ForceClose(cfg, w, i);
            if price <= 0.0 then w'.fault.Some? && w'.x == w.x && w'.queue == w.queue
            else
              && w'.fault.None? && |w'.queue| == |w.queue| + 1 && w.queue <= w'.queue
              && |w'.x.orders| == |w.x.orders| + 1 && w.x.orders <= w'.x.orders
              && w'.x.orders[|w.x.orders|].status == FILLED
              && var e := w'.queue[|w.queue|];
                 && e.orderId == |w.x.orders| && e.fill.Some? && e.update.ts == w.now
                 && var f := e.fill.value;
                    && f.instrument == i && f.price == price && f.ts == w.now && f.reason == FORCED_SQUARE_OFF
                    && f.quantity > 0 && w.book.Net(i) + f.side.Sign() * f.quantity == 0
                    && f.sequence == w.x.fills + 1
                    && match cfg.owner
                       case OneRun(run) => f.run == run
                       case WhoeverOpened => i in w.book.trips && f.run == w.book.trips[i].run
  {
    hide Inv, PaisaUp, PaisaDown;
    OwnerKnown(cfg, w, i);
    MarkKnown(cfg, w, i);
    var side := if w.book.Net(i) > 0 then SELL else BUY;
    PenalisedIs(cfg, side, w.book.marks[i], price);
  }

  lemma PenalisedIs(cfg: Config, side: Side, mark: real, price: real)
    requires Penalised(cfg, side == BUY, mark, price)
    ensures if price > 0.0 then ForcedPrice(cfg, side, mark) == price else ForcedPrice(cfg, side, mark) <= 0.0
  {
    var moved := if side == BUY then Raised(mark, cfg.penalty) else Lowered(mark, cfg.penalty);
    PaisaRounding(moved);
    if moved >= 0.0 {
      hide PaisaUp, PaisaDown;
      WholePaise(moved);
      OnePaisa(price, ForcedPrice(cfg, side, mark));
    } else {
      NoPaisaBetween(price, moved);
    }
  }

  /** Between a negative number and the next paisa there is no positive one. */
  lemma NoPaisaBetween(price: real, x: real)
    requires x < 0.0 && (PaisaAbove(price, x) || PaisaBelow(price, x))
    ensures price <= 0.0
  {
    var n := (price * 100.0).Floor;
    assert n as real < 1.0;
  }
}
