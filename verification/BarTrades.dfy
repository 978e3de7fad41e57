/** What a bar does to the orders of a run, told by the bar and the orders alone: which of them trade, how
    much, at what price, and which stops it arms. */
module BarTrades {
  import opened Basics
  import opened Market
  import opened FillModel
  import opened Exchange
  import opened Simulation
  import opened Lookahead
  import opened Safety
  import opened Netting
  import opened Ledger
  import opened ExitOnly

  // ---- the volume the bar has given out --------------------------------------------------

  /** The quantity traded in orders accepted before this one. */
  function TakenBefore(events: seq<Event>, id: nat): int {
    if events == [] then 0
    else
      var e := events[|events| - 1];
      TakenBefore(events[..|events| - 1], id)
      + if e.fill.Some? && e.orderId < id then e.fill.value.quantity else 0
  }

  lemma TakenOneMore(events: seq<Event>, e: Event, id: nat)
    ensures TakenBefore(events + [e], id)
         == TakenBefore(events, id) + if e.fill.Some? && e.orderId < id then e.fill.value.quantity else 0
  {
    assert (events + [e])[..|events|] == events;
  }

  /** At each order's turn, the volume gone is what the orders before it traded. */
  lemma {:induction false} TakenIs(
    x: ExchangeState, bar: Candle, now: int, model: BarFillModel, capacity: int, k: nat, id: nat)
    requires k <= |x.orders|
    ensures TakenBefore(MatchUpTo(x, bar, now, model, capacity, k).events, id)
         == capacity - MatchUpTo(x, bar, now, model, capacity, if id < k then id else k).capacity
  {
    hide EffectOn;
    if k != 0 {
      TakenIs(x, bar, now, model, capacity, k - 1, id);
      var m := MatchUpTo(x, bar, now, model, capacity, k - 1);
      match EffectOn(m.x.orders[k - 1], bar, m.capacity, model)
      case Trades(quantity, price) =>
        TakenOneMore(m.events, FillEvent(k - 1, m.x.orders[k - 1], quantity, price, m.x.fills + 1, now, MATCHED), id);
      case _ =>
    }
  }

  /** What a bar does to one order, at its turn, and nothing before or after. */
  lemma {:induction false} AtItsTurn(
    x: ExchangeState, bar: Candle, now: int, model: BarFillModel, capacity: int, k: nat, id: nat)
    requires id < k <= |x.orders|
    ensures MatchUpTo(x, bar, now, model, capacity, k).x.orders[id]
         == MatchOne(MatchUpTo(x, bar, now, model, capacity, id), bar, now, model, id).x.orders[id]
    ensures MatchUpTo(x, bar, now, model, capacity, id).x.orders[id] == x.orders[id]
    decreases k
  {
    hide EffectOn;
    MatchFrame(x, bar, now, model, capacity, id);
    if id < k - 1 {
      AtItsTurn(x, bar, now, model, capacity, k - 1, id);
    }
  }

  // ---- orders that trade -----------------------------------------------------------------

  /** Resting in the bar's instrument since before it opened and, for a stop, armed by then. */
  predicate Ready(o: Order, bar: Candle) {
    && (o.status == WORKING || o.status == PARTIALLY_FILLED)
    && o.request.instrument == bar.instrument && o.acceptedAt <= bar.ts
    && (o.request.orderType == LIMIT || (o.armedAt.Some? && o.armedAt.value <= bar.ts))
  }

  /** The bar is closed and traded through the limit, or with the gentler rule reached it. */
  predicate Reaches(cfg: Config, o: Order, bar: Candle) {
    && !bar.partial
    && match (cfg.model.crossing, o.request.side)
       case (ThroughBar, BUY) => bar.low < o.request.limit
       case (ThroughBar, SELL) => bar.high > o.request.limit
       case (TouchBar, BUY) => bar.low <= o.request.limit
       case (TouchBar, SELL) => bar.high >= o.request.limit
  }

  /** In any run, the next bar of an instrument trades exactly the orders that are ready and reached, each
      as much as it still wants of what the orders before it left of the bar's share of volume. */
  lemma BarTradesExactly(cfg: Config, w: World, bar: Candle, id: nat, share: nat)
    requires cfg.Valid() && Inv(cfg, w) && w.fault.None? && id < |w.x.orders|
    requires !bar.partial ==> share as real <= bar.volume as real * cfg.model.fraction < share as real + 1.0
    ensures var w' := MatchBar(cfg, w, bar);
            var o, o' := w.x.orders[id], w'.x.orders[id];
            var left := share - TakenBefore(w'.pushed[|w.pushed|..], id);
            && w.pushed <= w'.pushed && (!bar.partial ==> left >= 0)
            && o'.filled - o.filled
               == (if Ready(o, bar) && Reaches(cfg, o, bar) then Min(o.request.quantity - o.filled, left) else 0)
            && (o'.filled == o.filled ==> o'.status == o.status)
            && (o'.filled > o.filled ==>
                  o'.status == if o'.filled == o.request.quantity then FILLED else PARTIALLY_FILLED)
  {
    hide Agrees, OnlyExit, LedgerNet, ArmsHonest, LogHonest, MatchedOrders, LogOrders, BookOk, OutcomesOf,
         NamesOk, ScriptValid, BookingsOf, TallyAll, FillsWithinLimits, Closable, MatchUpTo, MatchOne, TakenBefore,
         BarFillModel.Capacity, Executions;
    var x, capacity, n := w.x, cfg.model.Capacity(bar), |w.x.orders|;
    var m := Match(x, bar, w.now, cfg.model);
    assert (w.pushed + m.events)[|w.pushed|..] == m.events;
    CapacityWithinVolume(cfg.model, bar);
    assert !bar.partial ==> capacity == share;
    TakenIs(x, bar, w.now, cfg.model, capacity, n, id);
    AtItsTurn(x, bar, w.now, cfg.model, capacity, n, id);
    CapacityLeft(x, bar, w.now, cfg.model, capacity, id);
    TurnIs(MatchUpTo(x, bar, w.now, cfg.model, capacity, id), bar, w.now, cfg, id);
  }

  lemma TurnIs(m: Matching, bar: Candle, now: int, cfg: Config, id: nat)
    requires id < |m.x.orders| && m.x.orders[id].Consistent() && m.capacity >= 0
    ensures var o, o' := m.x.orders[id], MatchOne(m, bar, now, cfg.model, id).x.orders[id];
            && o'.filled - o.filled
               == (if Ready(o, bar) && Reaches(cfg, o, bar) then Min(o.request.quantity - o.filled, m.capacity) else 0)
            && (o'.filled == o.filled ==> o'.status == o.status)
            && (o'.filled > o.filled ==>
                  o'.status == if o'.filled == o.request.quantity then FILLED else PARTIALLY_FILLED)
  {
  }

  // ---- stops that arm --------------------------------------------------------------------

  /** The bar is closed and reached the trigger: from below for a buy, from above for a sell. */
  predicate Touches(o: Order, bar: Candle) {
    && !bar.partial && o.request.trigger.Some?
    && if o.request.side == BUY then bar.high >= o.request.trigger.value else bar.low <= o.request.trigger.value
  }

  /** In any run, the next bar arms exactly the resting, unarmed stops accepted before it opened whose
      trigger it reaches, from its close on; an armed stop stays as it was. */
  lemma BarArmsExactly(cfg: Config, w: World, bar: Candle, id: nat)
    requires cfg.Valid() && Inv(cfg, w) && w.fault.None? && id < |w.x.orders|
    ensures var o, o' := w.x.orders[id], MatchBar(cfg, w, bar).x.orders[id];
            var arms := && (o.status == WORKING || o.status == PARTIALLY_FILLED)
                        && o.request.instrument == bar.instrument && o.acceptedAt <= bar.ts
                        && o.request.orderType == STOPLOSS_LIMIT && o.armedAt == None && Touches(o, bar);
            o'.armedAt == if arms then Some(bar.ts + bar.timeframe.Duration()) else o.armedAt
  {
    hide MatchUpTo, MatchOne, BarFillModel.Capacity;
    var x, capacity, n := w.x, cfg.model.Capacity(bar), |w.x.orders|;
    AtItsTurn(x, bar, w.now, cfg.model, capacity, n, id);
    ArmingIs(MatchUpTo(x, bar, w.now, cfg.model, capacity, id), bar, w.now, cfg.model, id);
  }

  lemma ArmingIs(m: Matching, bar: Candle, now: int, model: BarFillModel, id: nat)
    requires id < |m.x.orders| && m.x.orders[id].Consistent()
    ensures var o, o' := m.x.orders[id], MatchOne(m, bar, now, model, id).x.orders[id];
            var arms := && (o.status == WORKING || o.status == PARTIALLY_FILLED)
                        && o.request.instrument == bar.instrument && o.acceptedAt <= bar.ts
                        && o.request.orderType == STOPLOSS_LIMIT && o.armedAt == None && Touches(o, bar);
            o'.armedAt == if arms then Some(bar.ts + bar.timeframe.Duration()) else o.armedAt
  {
  }

  // ---- the terms of a trade --------------------------------------------------------------

  /** At the limit; or under slippage at the better of limit and open, moved against the order by so many
      hundredths of a percent and on to a whole paisa, where that is still better than the limit. */
  ghost predicate Pays(model: BarFillModel, side: Side, limit: real, bar: Candle, price: real) {
    match model.pricing
    case AtLimitPrice => price == limit
    case GapAwareSlippage(bps) =>
      if side == BUY then
        forall slipped, p :: 0.0 <= slipped && PaisaAbove(p, slipped) ==>
          slipped == (if bar.open < limit then bar.open else limit) * (1.0 + bps / 10_000.0) ==>
          price == if p < limit then p else limit
      else
        forall slipped, p :: 0.0 <= slipped && PaisaBelow(p, slipped) ==>
          slipped == (if bar.open > limit then bar.open else limit) * (1.0 - bps / 10_000.0) ==>
          price == if p > limit then p else limit
  }

  lemma PriceIsPaid(model: BarFillModel, side: Side, limit: real, bar: Candle)
    ensures Pays(model, side, limit, bar, model.PriceAt(side, limit, bar))
  {
    hide PaisaAbove, PaisaBelow, BarFillModel.PriceAt;
    var price := model.PriceAt(side, limit, bar);
    match model.pricing
    case AtLimitPrice =>
      if side == BUY {
        model.BuyPays(limit, bar, 0.0, 0.0);
      } else {
        model.SellGets(limit, bar, 0.0, 0.0);
      }
    case GapAwareSlippage(bps) =>
      if side == BUY {
        forall slipped, p | 0.0 <= slipped && PaisaAbove(p, slipped)
                            && slipped == (if bar.open < limit then bar.open else limit) * (1.0 + bps / 10_000.0)
          ensures price == if p < limit then p else limit
        {
          model.BuyPays(limit, bar, slipped, p);
        }
      } else {
        forall slipped, p | 0.0 <= slipped && PaisaBelow(p, slipped)
                            && slipped == (if bar.open > limit then bar.open else limit) * (1.0 - bps / 10_000.0)
          ensures price == if p > limit then p else limit
        {
          model.SellGets(limit, bar, slipped, p);
        }
      }
  }

  /** Every event of a bar is a trade of an order: now, on the order's own terms, at the price it pays, and
      numbered after the trades before it. */
  lemma BarTradesAt(cfg: Config, w: World, bar: Candle, k: nat)
    requires cfg.Valid() && Inv(cfg, w) && w.fault.None?
    requires |w.pushed| <= k < |MatchBar(cfg, w, bar).pushed|
    ensures var e := MatchBar(cfg, w, bar).pushed[k];
            && e.orderId < |w.x.orders| && e.fill.Some? && e.update.ts == w.now
            && var f, r := e.fill.value, w.x.orders[e.orderId].request;
               && f.orderId == e.orderId && f.tag == r.tag && f.instrument == r.instrument == bar.instrument
               && f.side == r.side && f.run == r.run && f.ts == w.now && f.reason == MATCHED && f.quantity > 0
               && f.sequence == w.x.fills + (k - |w.pushed|) + 1
               && Pays(cfg.model, r.side, r.limit, bar, f.price)
  {
    hide Inv, MatchUpTo, BarFillModel.Capacity, Pays, Executions, BarFillModel.PriceAt;
    var x, capacity, n := w.x, cfg.model.Capacity(bar), |w.x.orders|;
    var m := Match(x, bar, w.now, cfg.model);
    assert MatchBar(cfg, w, bar).pushed[k] == m.events[k - |w.pushed|];
    TermsOf(x, bar, w.now, cfg.model, capacity, n, k - |w.pushed|);
    var r := x.orders[m.events[k - |w.pushed|].orderId].request;
    PriceIsPaid(cfg.model, r.side, r.limit, bar);
  }

  lemma {:induction false} TermsOf(
    x: ExchangeState, bar: Candle, now: int, model: BarFillModel, capacity: int, k: nat, j: nat)
    requires k <= |x.orders| && j < |MatchUpTo(x, bar, now, model, capacity, k).events|
    ensures var m := MatchUpTo(x, bar, now, model, capacity, k);
            var e := m.events[j];
            && m.x.fills == x.fills + |m.events| && e.orderId < k && e.update.ts == now
            && var r := x.orders[e.orderId].request;
               && e.fill.Some? && r.instrument == bar.instrument
               && var f := e.fill.value;
                  && f == Fill(x.fills + j + 1, e.orderId, r.tag, r.instrument, r.side, f.quantity,
                               model.PriceAt(r.side, r.limit, bar), now, r.run, MATCHED)
                  && f.quantity > 0
  {
    hide EffectOn, BarFillModel.PriceAt;
    MatchFrame(x, bar, now, model, capacity, k - 1);
    var before := MatchUpTo(x, bar, now, model, capacity, k - 1);
    FillsCounted(x, bar, now, model, capacity, k - 1);
    TradesAt(before.x.orders[k - 1], bar, before.capacity, model);
    if j < |before.events| {
      TermsOf(x, bar, now, model, capacity, k - 1, j);
    }
  }

  lemma TradesAt(o: Order, bar: Candle, capacity: int, model: BarFillModel)
    ensures var e := EffectOn(o, bar, capacity, model);
            e.Trades? ==>
              && e.quantity > 0 && o.request.instrument == bar.instrument
              && e.price == model.PriceAt(o.request.side, o.request.limit, bar)
  {
  }

  lemma {:induction false} FillsCounted(
    x: ExchangeState, bar: Candle, now: int, model: BarFillModel, capacity: int, k: nat)
    requires k <= |x.orders|
    ensures var m := MatchUpTo(x, bar, now, model, capacity, k); m.x.fills == x.fills + |m.events|
  {
    hide EffectOn;
    if k != 0 {
      FillsCounted(x, bar, now, model, capacity, k - 1);
    }
  }
}
