/** After square-off: the exit is alone in its instrument, and it can only shrink the position. */
module ExitOnly {
  import opened Basics
  import opened Market
  import opened FillModel
  import opened Exchange
  import opened Netting

  /** `to` is `from` or smaller, on the same side of zero or flat. */
  predicate Shrinks(from: int, to: int) { 0 <= to <= from || from <= to <= 0 }

  lemma ShrinksTransitive(a: int, b: int, c: int)
    requires Shrinks(a, b) && Shrinks(b, c)
    ensures Shrinks(a, c)
  {
  }

  /** Nothing rests in the instrument but the order at `exit`, which is against the position and no
      larger than it. */
  ghost predicate OnlyExit(orders: seq<Order>, i: Instrument, exit: nat) {
    var net := LedgerNet(orders, i);
    forall k :: 0 <= k < |orders| && RestsIn(orders[k], Some(i)) ==>
      && k == exit && net != 0 && (orders[k].request.side.SELL? <==> net > 0)
      && orders[k].Remaining() <= Abs(net)
  }

  lemma NoneRests(orders: seq<Order>, i: Instrument, exit: nat)
    requires forall k :: 0 <= k < |orders| ==> !RestsIn(orders[k], Some(i))
    ensures OnlyExit(orders, i, exit)
  {
  }

  /** A new order, in another instrument, or the exit itself where nothing rested. */
  lemma OnlyExitAppend(orders: seq<Order>, o: Order, i: Instrument, exit: nat)
    requires OnlyExit(orders, i, exit) && (o.filled == 0 || o.request.instrument != i)
    requires o.request.instrument != i || !o.IsOpen() || (
               && exit == |orders| && (forall k :: 0 <= k < |orders| ==> !RestsIn(orders[k], Some(i)))
               && LedgerNet(orders, i) != 0 && (o.request.side.SELL? <==> LedgerNet(orders, i) > 0)
               && o.Remaining() <= Abs(LedgerNet(orders, i)))
    ensures OnlyExit(orders + [o], i, exit)
  {
    LedgerNetAppend(orders, o, i);
  }

  /** An order that stops resting without trading further. */
  lemma OnlyExitClosed(orders: seq<Order>, id: nat, o: Order, i: Instrument, exit: nat)
    requires OnlyExit(orders, i, exit) && id < |orders|
    requires o.request == orders[id].request && o.filled == orders[id].filled
    requires o.IsOpen() ==> orders[id].IsOpen()
    ensures OnlyExit(orders[id := o], i, exit) && LedgerNet(orders[id := o], i) == LedgerNet(orders, i)
  {
    LedgerNetUpdate(orders, id, o, i);
  }

  /** A fill of the exit itself: what is left of it still fits what is left of the position. */
  lemma OnlyExitFilled(orders: seq<Order>, id: nat, quantity: int, price: real, i: Instrument, exit: nat)
    requires OnlyExit(orders, i, exit) && id < |orders| && RestsIn(orders[id], Some(i))
    requires 0 < quantity <= orders[id].Remaining()
    ensures var orders' := orders[id := Filled(orders[id], quantity, price)];
            OnlyExit(orders', i, exit) && Shrinks(LedgerNet(orders, i), LedgerNet(orders', i))
  {
    LedgerNetUpdate(orders, id, Filled(orders[id], quantity, price), i);
  }

  lemma OtherInstrument(orders: seq<Order>, id: nat, o: Order, i: Instrument, exit: nat)
    requires OnlyExit(orders, i, exit) && id < |orders|
    requires o.request == orders[id].request && o.request.instrument != i
    ensures OnlyExit(orders[id := o], i, exit) && LedgerNet(orders[id := o], i) == LedgerNet(orders, i)
  {
    LedgerNetUpdate(orders, id, o, i);
  }

  lemma OneOrderShrinks(m: Matching, bar: Candle, now: int, model: BarFillModel, id: nat, i: Instrument, exit: nat)
    requires id < |m.x.orders| && OnlyExit(m.x.orders, i, exit) && m.capacity >= 0
    ensures var r := MatchOne(m, bar, now, model, id);
            OnlyExit(r.x.orders, i, exit) && Shrinks(LedgerNet(m.x.orders, i), LedgerNet(r.x.orders, i))
  {
    hide OnlyExit, LedgerNet, EffectOn;
    var o := m.x.orders[id];
    EffectBounds(o, bar, m.capacity, model);
    match EffectOn(o, bar, m.capacity, model)
    case Nothing =>
    case Arms => OnlyExitClosed(m.x.orders, id, o.(armedAt := Some(bar.ClosesAt())), i, exit);
    case Trades(quantity, price) =>
      if o.request.instrument == i {
        OnlyExitFilled(m.x.orders, id, quantity, price, i, exit);
      } else {
        OtherInstrument(m.x.orders, id, Filled(o, quantity, price), i, exit);
      }
  }

  lemma EffectBounds(o: Order, bar: Candle, capacity: int, model: BarFillModel)
    ensures var e := EffectOn(o, bar, capacity, model);
            && (e.Trades? ==> RestsIn(o, Some(bar.instrument)) && 0 < e.quantity <= o.Remaining())
  {
  }

  /** A whole bar keeps the exit alone and only shrinks the position. */
  lemma {:induction false} MatchShrinks(
    x: ExchangeState, bar: Candle, now: int, model: BarFillModel, capacity: int, k: nat, i: Instrument, exit: nat)
    requires k <= |x.orders| && OnlyExit(x.orders, i, exit) && AllConsistent(x.orders) && capacity >= 0
    ensures var m := MatchUpTo(x, bar, now, model, capacity, k);
            OnlyExit(m.x.orders, i, exit) && Shrinks(LedgerNet(x.orders, i), LedgerNet(m.x.orders, i))
  {
    hide OnlyExit, LedgerNet, MatchOne;
    if k != 0 {
      MatchShrinks(x, bar, now, model, capacity, k - 1, i, exit);
      CapacityLeft(x, bar, now, model, capacity, k - 1);
      OneOrderShrinks(MatchUpTo(x, bar, now, model, capacity, k - 1), bar, now, model, k - 1, i, exit);
    }
  }

  lemma {:induction false} ExpireKeepsExit(x: ExchangeState, now: int, k: nat, i: Instrument, exit: nat)
    requires k <= |x.orders|
    ensures var y := ExpireUpTo(x, now, k).0;
            LedgerNet(y.orders, i) == LedgerNet(x.orders, i)
            && (OnlyExit(x.orders, i, exit) ==> OnlyExit(y.orders, i, exit))
  {
    hide OnlyExit, LedgerNet;
    if k != 0 {
      ExpireKeepsExit(x, now, k - 1, i, exit);
      var y := ExpireUpTo(x, now, k - 1).0;
      var o := Cancelled(y.orders[k - 1]);
      LedgerNetUpdate(y.orders, k - 1, o, i);
      if OnlyExit(y.orders, i, exit) {
        OnlyExitClosed(y.orders, k - 1, o, i, exit);
      }
    }
  }
}
