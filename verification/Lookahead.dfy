/** No look-ahead: where every matched fill came from, over a whole run. */
module Lookahead {
  import opened Basics
  import opened Market
  import opened FillModel
  import opened Exchange
  import opened Simulation

  /** A bar that could arm this stop: it opened no earlier than the order was accepted, it reached
      the trigger, and the arming instant is its close. */
  ghost predicate ArmedBy(o: Order, bar: Candle, model: BarFillModel) {
    && o.armedAt.Some? && o.request.trigger.Some?
    && bar.ClosesAt() == o.armedAt.value
    && bar.instrument == o.request.instrument
    && o.acceptedAt <= bar.ts
    && model.Triggers(o.request.side, o.request.trigger.value, bar)
  }

  ghost predicate ArmsHonest(orders: seq<Order>, bars: seq<Candle>, model: BarFillModel) {
    forall id :: 0 <= id < |orders| && orders[id].armedAt.Some? ==>
      exists b :: b in bars && ArmedBy(orders[id], b, model)
  }

  /** A fill of this order on this bar used nothing the strategy could already see: the bar opened
      at or after the order was accepted, traded through its limit, and, for a stop, opened at or
      after the close of the bar that armed it. */
  ghost predicate Fair(o: Order, bar: Candle, model: BarFillModel) {
    && bar.instrument == o.request.instrument && !bar.partial
    && o.acceptedAt <= bar.ts
    && model.Crossed(o.request.side, o.request.limit, bar)
    && (o.request.orderType.STOPLOSS_LIMIT? ==> o.armedAt.Some? && o.armedAt.value <= bar.ts)
  }

  ghost predicate LogHonest(orders: seq<Order>, log: seq<Execution>, bars: seq<Candle>, model: BarFillModel) {
    forall l :: 0 <= l < |log| ==>
      log[l].orderId < |orders| && log[l].bar in bars && Fair(orders[log[l].orderId], log[l].bar, model)
  }

  /** The orders of the matched fills among some events, and of a log, in order. */
  function MatchedOrders(events: seq<Event>): seq<nat> {
    if events == [] then []
    else
      var e := events[|events| - 1];
      MatchedOrders(events[..|events| - 1])
      + if e.fill.Some? && e.fill.value.reason.MATCHED? then [e.fill.value.orderId] else []
  }

  function LogOrders(log: seq<Execution>): seq<nat> {
    if log == [] then [] else LogOrders(log[..|log| - 1]) + [log[|log| - 1].orderId]
  }

  /** Every matched fill ever reported is in the log and within its order's limit, and every log entry
      is fair. */
  ghost predicate Honest(w: World, model: BarFillModel) {
    && FillsWithinLimits(w.x.orders, w.pushed)
    && ArmsHonest(w.x.orders, w.bars, model)
    && LogHonest(w.x.orders, w.log, w.bars, model)
    && MatchedOrders(w.pushed) == LogOrders(w.log)
  }

  /** Nothing already visible: the bar had not closed when the order was accepted. */
  lemma FairMeansUnseen(o: Order, bar: Candle, model: BarFillModel)
    requires Fair(o, bar, model)
    ensures bar.ClosesAt() > o.acceptedAt
    ensures o.armedAt.Some? && o.request.orderType.STOPLOSS_LIMIT? ==> bar.ClosesAt() > o.armedAt.value
  {
  }

  lemma OrdersAppend(orders: seq<Order>, o: Order, log: seq<Execution>, bars: seq<Candle>, model: BarFillModel)
    requires ArmsHonest(orders, bars, model) && LogHonest(orders, log, bars, model)
    requires o.armedAt.None?
    ensures ArmsHonest(orders + [o], bars, model) && LogHonest(orders + [o], log, bars, model)
  {
    var orders' := orders + [o];
    forall id | 0 <= id < |orders'| && orders'[id].armedAt.Some?
      ensures exists b :: b in bars && ArmedBy(orders'[id], b, model)
    {
      assert orders'[id] == orders[id];
    }
  }

  /** Closing an order, or filling it, changes nothing that makes its past fills fair. */
  lemma OrderChanged(
    orders: seq<Order>, id: nat, o: Order, log: seq<Execution>, bars: seq<Candle>, model: BarFillModel)
    requires ArmsHonest(orders, bars, model) && LogHonest(orders, log, bars, model)
    requires id < |orders| && o.request == orders[id].request && o.acceptedAt == orders[id].acceptedAt
    requires o.armedAt == orders[id].armedAt
    ensures ArmsHonest(orders[id := o], bars, model) && LogHonest(orders[id := o], log, bars, model)
  {
    var orders' := orders[id := o];
    forall k | 0 <= k < |orders'| && orders'[k].armedAt.Some?
      ensures exists b :: b in bars && ArmedBy(orders'[k], b, model)
    {
      var b :| b in bars && ArmedBy(orders[k], b, model);
      assert ArmedBy(orders'[k], b, model);
    }
    forall l | 0 <= l < |log|
      ensures log[l].orderId < |orders'| && log[l].bar in bars && Fair(orders'[log[l].orderId], log[l].bar, model)
    {
      assert Fair(orders[log[l].orderId], log[l].bar, model);
    }
  }

  lemma {:induction false} ExpireHonest(
    x: ExchangeState, now: int, k: nat, log: seq<Execution>, bars: seq<Candle>, model: BarFillModel)
    requires ArmsHonest(x.orders, bars, model) && LogHonest(x.orders, log, bars, model)
    requires k <= |x.orders|
    ensures var y := ExpireUpTo(x, now, k).0;
            ArmsHonest(y.orders, bars, model) && LogHonest(y.orders, log, bars, model)
  {
    if k != 0 {
      ExpireHonest(x, now, k - 1, log, bars, model);
      var y := ExpireUpTo(x, now, k - 1).0;
      if y.orders[k - 1].IsOpen() {
        OrderChanged(y.orders, k - 1, Cancelled(y.orders[k - 1]), log, bars, model);
      }
    }
  }

  lemma Unmatched(events: seq<Event>, e: Event)
    requires e.fill.Some? ==> !e.fill.value.reason.MATCHED?
    ensures MatchedOrders(events + [e]) == MatchedOrders(events)
  {
    assert (events + [e])[..|events|] == events;
  }

  lemma {:induction false} UnmatchedAll(events: seq<Event>, more: seq<Event>)
    requires forall k :: 0 <= k < |more| && more[k].fill.Some? ==> !more[k].fill.value.reason.MATCHED?
    ensures MatchedOrders(events + more) == MatchedOrders(events)
  {
    if more == [] {
      assert events + more == events;
    } else {
      var n := |more| - 1;
      UnmatchedAll(events, more[..n]);
      Unmatched(events + more[..n], more[n]);
      assert events + more == events + more[..n] + [more[n]];
    }
  }

  /** A bar's matched fills are fair, and they are exactly what the bar reports. */
  lemma {:induction false} MatchHonest(
    x: ExchangeState, bar: Candle, now: int, model: BarFillModel, capacity: int, k: nat,
    log: seq<Execution>, bars: seq<Candle>, events: seq<Event>)
    requires k <= |x.orders| && AllConsistent(x.orders) && capacity >= 0 && bar in bars
    requires ArmsHonest(x.orders, bars, model) && LogHonest(x.orders, log, bars, model)
    requires MatchedOrders(events) == LogOrders(log)
    ensures var m := MatchUpTo(x, bar, now, model, capacity, k);
            var log' := log + Executions(m.events, bar);
            && ArmsHonest(m.x.orders, bars, model) && LogHonest(m.x.orders, log', bars, model)
            && MatchedOrders(events + m.events) == LogOrders(log')
  {
    hide ArmsHonest, LogHonest, MatchedOrders, LogOrders, MatchOne;
    if k == 0 {
      assert log + [] == log && events + [] == events;
    } else {
      MatchHonest(x, bar, now, model, capacity, k - 1, log, bars, events);
      CapacityLeft(x, bar, now, model, capacity, k - 1);
      var m := MatchUpTo(x, bar, now, model, capacity, k - 1);
      OneHonest(m, bar, now, model, k - 1, log, bars, events);
    }
  }

  lemma OneHonest(
    m: Matching, bar: Candle, now: int, model: BarFillModel, id: nat,
    log: seq<Execution>, bars: seq<Candle>, events: seq<Event>)
    requires id < |m.x.orders| && m.x.orders[id].Consistent() && bar in bars
    requires var log' := log + Executions(m.events, bar);
             && ArmsHonest(m.x.orders, bars, model) && LogHonest(m.x.orders, log', bars, model)
             && MatchedOrders(events + m.events) == LogOrders(log')
    ensures var r := MatchOne(m, bar, now, model, id);
            var log' := log + Executions(r.events, bar);
            && ArmsHonest(r.x.orders, bars, model) && LogHonest(r.x.orders, log', bars, model)
            && MatchedOrders(events + r.events) == LogOrders(log')
  {
    hide EffectOn, ArmsHonest, LogHonest, Fair, ArmedBy, MatchedOrders, LogOrders, Executions;
    var r := MatchOne(m, bar, now, model, id);
    var o, log' := m.x.orders[id], log + Executions(m.events, bar);
    FairEffect(o, bar, m.capacity, model);
    match EffectOn(o, bar, m.capacity, model)
    case Nothing =>
    case Arms => ArmChanged(m.x.orders, id, r.x.orders[id], bar, log', bars, model);
    case Trades(quantity, price) =>
      OrderChanged(m.x.orders, id, r.x.orders[id], log', bars, model);
      LogGrows(r.x.orders, log', Execution(id, bar), bars, model);
      EventsGrow(log, bar, events, m.events, FillEvent(id, o, quantity, price, m.x.fills + 1, now, MATCHED));
  }

  /** One more matched fill: one more execution in the log, and in what the events report. */
  lemma EventsGrow(log: seq<Execution>, bar: Candle, before: seq<Event>, events: seq<Event>, e: Event)
    requires e.fill.Some? && e.fill.value.reason.MATCHED? && e.fill.value.orderId == e.orderId
    ensures log + Executions(events + [e], bar) == log + Executions(events, bar) + [Execution(e.orderId, bar)]
    ensures MatchedOrders(before + (events + [e])) == MatchedOrders(before + events) + [e.orderId]
  {
    assert (events + [e])[..|events|] == events;
    var all := before + (events + [e]);
    assert all[..|all| - 1] == before + events;
  }

  /** A bar trades only what is fair, and arms only what it may. */
  lemma FairEffect(o: Order, bar: Candle, capacity: int, model: BarFillModel)
    ensures EffectOn(o, bar, capacity, model).Trades? ==> Fair(o, bar, model)
    ensures EffectOn(o, bar, capacity, model).Arms? ==>
              && o.armedAt.None? && o.request.orderType.STOPLOSS_LIMIT?
              && ArmedBy(o.(armedAt := Some(bar.ClosesAt())), bar, model)
  {
  }

  lemma LogGrows(orders: seq<Order>, log: seq<Execution>, e: Execution, bars: seq<Candle>, model: BarFillModel)
    requires LogHonest(orders, log, bars, model)
    requires e.orderId < |orders| && e.bar in bars && Fair(orders[e.orderId], e.bar, model)
    ensures LogHonest(orders, log + [e], bars, model)
    ensures LogOrders(log + [e]) == LogOrders(log) + [e.orderId]
  {
    assert (log + [e])[..|log|] == log;
  }

  lemma ArmChanged(
    orders: seq<Order>, id: nat, o: Order, bar: Candle, log: seq<Execution>, bars: seq<Candle>, model: BarFillModel)
    requires ArmsHonest(orders, bars, model) && LogHonest(orders, log, bars, model)
    requires id < |orders| && orders[id].armedAt.None? && orders[id].request.orderType.STOPLOSS_LIMIT?
    requires o == orders[id].(armedAt := Some(bar.ClosesAt())) && bar in bars && ArmedBy(o, bar, model)
    ensures ArmsHonest(orders[id := o], bars, model) && LogHonest(orders[id := o], log, bars, model)
  {
    var orders' := orders[id := o];
    forall k | 0 <= k < |orders'| && orders'[k].armedAt.Some?
      ensures exists b :: b in bars && ArmedBy(orders'[k], b, model)
    {
      if k != id {
        var b :| b in bars && ArmedBy(orders[k], b, model);
        assert ArmedBy(orders'[k], b, model);
      }
    }
    forall l | 0 <= l < |log|
      ensures log[l].orderId < |orders'| && log[l].bar in bars && Fair(orders'[log[l].orderId], log[l].bar, model)
    {
      assert Fair(orders[log[l].orderId], log[l].bar, model);
    }
  }

  lemma MoreBars(orders: seq<Order>, log: seq<Execution>, bars: seq<Candle>, bar: Candle, model: BarFillModel)
    requires ArmsHonest(orders, bars, model) && LogHonest(orders, log, bars, model)
    ensures ArmsHonest(orders, bars + [bar], model) && LogHonest(orders, log, bars + [bar], model)
  {
    forall id | 0 <= id < |orders| && orders[id].armedAt.Some?
      ensures exists b :: b in bars + [bar] && ArmedBy(orders[id], b, model)
    {
      var b :| b in bars && ArmedBy(orders[id], b, model);
      assert b in bars + [bar];
    }
  }
}
