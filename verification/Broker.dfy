/** `SimulatedBroker` as the source keeps it: order objects mutated in place, plus two hand-kept
    indexes over the open ones. Each method is proved against the ledger scan in `Exchange`. */
module Broker {
  import opened Basics
  import opened Market
  import opened FillModel
  import opened Exchange
  import opened Clock

  class SimOrder {
    const id: nat
    const request: Request
    const acceptedAt: int
    var status: Status
    var filled: int
    var turnover: real
    var armedAt: Option<int>

    constructor (id: nat, request: Request, acceptedAt: int)
      ensures this.id == id
      ensures View() == Accepted(request, acceptedAt, None)
    {
      this.id, this.request, this.acceptedAt := id, request, acceptedAt;
      status, filled, turnover, armedAt := WORKING, 0, 0.0, None;
    }

    function View(): Order
      reads this
    {
      Order(request, acceptedAt, status, filled, turnover, armedAt)
    }
  }

  function Ids(s: seq<SimOrder>): (ids: seq<nat>)
    ensures |ids| == |s|
    ensures forall i :: 0 <= i < |s| ==> ids[i] == s[i].id
  {
    if s == [] then [] else Ids(s[..|s| - 1]) + [s[|s| - 1].id]
  }

  /** `dict.pop(id)` on an index. */
  function Pop(s: seq<SimOrder>, id: nat): (r: seq<SimOrder>)
    ensures forall o :: o in r ==> o in s
  {
    if s == [] then []
    else if s[0].id == id then Pop(s[1..], id)
    else [s[0]] + Pop(s[1..], id)
  }

  lemma {:induction false} PopIds(s: seq<SimOrder>, id: nat)
    ensures Ids(Pop(s, id)) == Without(Ids(s), id)
  {
    if s != [] {
      PopIds(s[1..], id);
      assert Ids(s) == [s[0].id] + Ids(s[1..]);
      assert s[0].id != id ==> Ids([s[0]] + Pop(s[1..], id)) == [s[0].id] + Ids(Pop(s[1..], id));
    }
  }

  /** The ledger place a walk over a resting list has reached before its `n`th order. */
  function Reached(resting: seq<SimOrder>, n: nat): nat
    requires n <= |resting|
  {
    if n == 0 then 0 else resting[n - 1].id + 1
  }

  /** Between two neighbours of a resting list no order of the ledger rests. */
  lemma NoneBetween(resting: seq<SimOrder>, ledger: seq<Order>, only: Option<Instrument>, n: nat)
    requires n <= |resting| && Ids(resting) == Resting(ledger, only)
    ensures var stop := if n < |resting| then resting[n].id else |ledger|;
            && Reached(resting, n) <= stop <= |ledger|
            && (n < |resting| ==> stop < |ledger| && RestsIn(ledger[stop], only))
            && forall i :: Reached(resting, n) <= i < stop ==> !RestsIn(ledger[i], only)
  {
    RestingExactly(ledger, only);
    var ids := Resting(ledger, only);
    assert n < |resting| ==> ids[n] in ids;
    assert n > 0 ==> ids[n - 1] in ids;
    var stop := if n < |resting| then resting[n].id else |ledger|;
    forall k | 0 <= k < |ids| ensures ids[k] < Reached(resting, n) || stop <= ids[k] {
    }
    forall i | Reached(resting, n) <= i < stop ensures !RestsIn(ledger[i], only) {
      assert i !in ids;
    }
  }

  type InstrumentIndex = map<Instrument, seq<SimOrder>>

  function Entry(index: InstrumentIndex, instrument: Instrument): seq<SimOrder> {
    if instrument in index then index[instrument] else []
  }

  /** The two indexes list exactly the open orders of the ledger, oldest first. */
  ghost predicate Tracks(open: seq<SimOrder>, index: InstrumentIndex, ledger: seq<Order>) {
    && Ids(open) == Resting(ledger, None)
    && forall i :: Ids(Entry(index, i)) == Resting(ledger, Some(i))
  }

  lemma TracksAccepted(
    open: seq<SimOrder>, index: InstrumentIndex, ledger: seq<Order>, order: SimOrder, o: Order)
    requires Tracks(open, index, ledger) && order.id == |ledger|
    ensures !o.IsOpen() ==> Tracks(open, index, ledger + [o])
    ensures o.IsOpen() ==>
              var i := o.request.instrument;
              Tracks(open + [order], index[i := Entry(index, i) + [order]], ledger + [o])
  {
    var i := o.request.instrument;
    var index' := if o.IsOpen() then index[i := Entry(index, i) + [order]] else index;
    RestingAppend(ledger, o, None);
    forall j ensures Ids(Entry(index', j)) == Resting(ledger + [o], Some(j)) {
      RestingAppend(ledger, o, Some(j));
    }
  }

  lemma TracksKept(open: seq<SimOrder>, index: InstrumentIndex, ledger: seq<Order>, id: nat, o: Order)
    requires Tracks(open, index, ledger) && id < |ledger|
    requires o.request == ledger[id].request && (o.IsOpen() <==> ledger[id].IsOpen())
    ensures Tracks(open, index, ledger[id := o])
  {
    RestingKept(ledger, id, o, None);
    forall j ensures Ids(Entry(index, j)) == Resting(ledger[id := o], Some(j)) {
      RestingKept(ledger, id, o, Some(j));
    }
  }

  /** `_close` on both indexes. */
  function Unlisted(index: InstrumentIndex, instrument: Instrument, id: nat): InstrumentIndex {
    if instrument in index then index[instrument := Pop(index[instrument], id)] else index
  }

  lemma TracksClosed(open: seq<SimOrder>, index: InstrumentIndex, ledger: seq<Order>, id: nat, o: Order)
    requires Tracks(open, index, ledger) && id < |ledger|
    requires o.request == ledger[id].request && !o.IsOpen()
    ensures Tracks(Pop(open, id), Unlisted(index, o.request.instrument, id), ledger[id := o])
  {
    var instrument := o.request.instrument;
    var index' := Unlisted(index, instrument, id);
    PopIds(open, id);
    RestingClosed(ledger, id, o, None);
    forall j ensures Ids(Entry(index', j)) == Resting(ledger[id := o], Some(j)) {
      RestingClosed(ledger, id, o, Some(j));
      PopIds(Entry(index, j), id);
      if j != instrument {
        RestingExactly(ledger, Some(j));
        WithoutAbsent(Resting(ledger, Some(j)), id);
      }
    }
  }

  class SimulatedBroker {
    const clock: BarClock
    const model: BarFillModel
    const rejects: (nat, Request) -> Option<string>
    var orders: seq<SimOrder>
    var open: seq<SimOrder>
    var openByInstrument: InstrumentIndex
    var tags: set<Tag>
    var fills: nat

    ghost function Ledger(): (l: seq<Order>)
      reads this, orders
      ensures |l| == |orders|
    {
      seq(|orders|, i requires 0 <= i < |orders| reads this, orders => orders[i].View())
    }

    ghost function View(): ExchangeState
      reads this, orders
    {
      ExchangeState(Ledger(), tags, fills)
    }

    /** Orders are only ever added, and always as new objects. */
    twostate predicate Grew()
      reads this
    {
      && old(orders) <= orders
      && forall k :: |old(orders)| <= k < |orders| ==> fresh(orders[k])
    }

    /** The ledger numbers the orders; the indexes hold the order objects themselves. */
    ghost predicate Valid()
      reads this, orders
    {
      && (forall i :: 0 <= i < |orders| ==> orders[i].id == i)
      && (forall o :: o in open ==> o in orders)
      && (forall i, o :: i in openByInstrument && o in openByInstrument[i] ==> o in orders)
      && Tracks(open, openByInstrument, Ledger())
    }

    constructor (clock: BarClock, model: BarFillModel, rejects: (nat, Request) -> Option<string>)
      ensures Valid() && this.clock == clock && this.model == model && this.rejects == rejects
      ensures View() == ExchangeState([], {}, 0) && orders == []
    {
      this.clock, this.model, this.rejects := clock, model, rejects;
      orders, open, openByInstrument, tags, fills := [], [], map[], {}, 0;
    }

    /** Accept an order or refuse it. A reused tag is an error and changes nothing. */
    method SubmitOrder(r: Request) returns (result: Result<Event, Fault>)
      requires Valid()
      modifies this
      ensures Valid()
      ensures Grew()
      ensures match Submit(old(View()), r, clock.now, rejects(|old(orders)|, r))
              case Ok((x, e)) => View() == x && result == Ok(e)
              case Err(f) => View() == old(View()) && orders == old(orders) && result == Err(f)
    {
      hide Tracks;
      if r.tag in tags {
        return Err(DuplicateTag);
      }
      var order := new SimOrder(|orders|, r, clock.now);
      ghost var ledger := Ledger();
      var why := rejects(|orders|, r);
      if why.Some? {
        order.status := REJECTED;
      }
      TracksAccepted(open, openByInstrument, ledger, order, order.View());
      tags := tags + {r.tag};
      orders := orders + [order];
      if why.None? {
        open := open + [order];
        openByInstrument :=
          openByInstrument[r.instrument := Entry(openByInstrument, r.instrument) + [order]];
      }
      assert Ledger() == ledger + [order.View()];
      var message := if why.Some? then why.value else "";
      result := Ok(Event(order.id, UpdateOf(order.View(), clock.now, message), None));
    }

    /** Take an order that is over out of both indexes. */
    method Close(order: SimOrder, ghost before: seq<Order>)
      requires order.id < |before| && Tracks(open, openByInstrument, before)
      requires order.View().request == before[order.id].request && !order.View().IsOpen()
      modifies this`open, this`openByInstrument
      ensures open == Pop(old(open), order.id)
      ensures openByInstrument == Unlisted(old(openByInstrument), order.request.instrument, order.id)
      ensures Tracks(open, openByInstrument, before[order.id := order.View()])
    {
      TracksClosed(open, openByInstrument, before, order.id, order.View());
      open := Pop(open, order.id);
      var instrument := order.request.instrument;
      if instrument in openByInstrument {
        openByInstrument := openByInstrument[instrument := Pop(openByInstrument[instrument], order.id)];
      }
    }

    /** Mark an open order cancelled and stop it resting. */
    method Withdraw(order: SimOrder)
      requires Valid() && order in orders && order.View().IsOpen()
      modifies this`open, this`openByInstrument, order
      ensures Valid()
      ensures order.View() == Cancelled(old(order.View()))
      ensures View() == old(View()).(orders := old(Ledger())[order.id := order.View()])
    {
      hide Tracks;
      ghost var before := Ledger();
      order.status := CANCELLED;
      Close(order, before);
      assert Ledger() == before[order.id := order.View()];
    }

    method CancelOrder(id: nat) returns (result: Result<Event, Fault>)
      requires Valid()
      modifies this`open, this`openByInstrument, orders
      ensures Valid()
      ensures match Cancel(old(View()), id, clock.now)
              case Ok((x, e)) => View() == x && result == Ok(e)
              case Err(f) => View() == old(View()) && result == Err(f)
    {
      hide Tracks;
      if id >= |orders| {
        return Err(UnknownOrder);
      }
      var order := orders[id];
      if order.status.Terminal() {
        return Err(OrderNotOpen);
      }
      Withdraw(order);
      result := Ok(Event(id, UpdateOf(order.View(), clock.now, "cancelled"), None));
    }

    /** Book a fill on an order. `before` is the ledger the indexes still describe: the order is
        open in it, unless it is a forced trade that never rested. */
    method FillOrder(order: SimOrder, quantity: int, price: real, reason: FillReason,
                     ghost before: seq<Order>) returns (e: Event)
      requires (forall i :: 0 <= i < |orders| ==> orders[i].id == i) && order in orders
      requires (forall o :: o in open ==> o in orders)
      requires (forall i, o :: i in openByInstrument && o in openByInstrument[i] ==> o in orders)
      requires |before| == |orders| && Ledger() == before[order.id := order.View()]
      requires Tracks(open, openByInstrument, before)
      requires before[order.id].request == order.request
      requires if before[order.id].IsOpen() then true else quantity == order.View().Remaining()
      modifies this`fills, this`open, this`openByInstrument, order
      ensures Valid()
      ensures View() == old(View()).(orders := old(Ledger())[order.id := Filled(old(order.View()), quantity, price)],
                                     fills := old(fills) + 1)
      ensures e == FillEvent(order.id, old(order.View()), quantity, price, fills, clock.now, reason)
    {
      hide Tracks;
      ghost var ledger := Ledger();
      fills := fills + 1;
      order.filled := order.filled + quantity;
      order.turnover := order.turnover + price * quantity as real;
      order.status := if order.request.quantity - order.filled == 0 then FILLED else PARTIALLY_FILLED;
      if order.status.Terminal() {
        Close(order, before);
      } else {
        TracksKept(open, openByInstrument, before, order.id, order.View());
      }
      assert Ledger() == ledger[order.id := order.View()] == before[order.id := order.View()];
      var r := order.request;
      var fill := Fill(fills, order.id, r.tag, r.instrument, r.side, quantity, price, clock.now, r.run, reason);
      e := Event(order.id, UpdateOf(order.View(), clock.now, ""), Some(fill));
    }

    /** The broker's own end-of-day trade: recorded and filled at once, never resting. */
    method SquareOffPosition(instrument: Instrument, side: Side, quantity: int, price: real, run: RunId)
      returns (result: Result<Event, Fault>)
      requires Valid()
      modifies this
      ensures Valid()
      ensures Grew()
      ensures match SquareOff(old(View()), instrument, side, quantity, price, run, clock.now)
              case Ok((x, e)) => View() == x && result == Ok(e)
              case Err(f) => View() == old(View()) && orders == old(orders) && result == Err(f)
    {
      hide Tracks;
      var r := Request(instrument, side, LIMIT, quantity, price, SquareOffTag(fills + 1), run, None);
      if !r.Valid() {
        return Err(InvalidRequest(r));
      }
      var order := new SimOrder(|orders|, r, clock.now);
      ghost var ledger := Ledger();
      ghost var done := Filled(order.View(), quantity, price);
      TracksAccepted(open, openByInstrument, ledger, order, done);
      orders := orders + [order];
      tags := tags + {r.tag};
      assert Ledger() == ledger + [order.View()];
      var e := FillOrder(order, quantity, price, FORCED_SQUARE_OFF, ledger + [done]);
      result := Ok(e);
    }

    lemma WhatRests()
      requires Valid()
      ensures Ids(open) == Resting(Ledger(), None)
      ensures forall i :: Ids(Entry(openByInstrument, i)) == Resting(Ledger(), Some(i))
      ensures forall j :: 0 <= j < |open| ==> open[j] in orders
      ensures forall i, o :: o in Entry(openByInstrument, i) ==> o in orders
      ensures ExpireUpTo(View(), clock.now, 0) == (View(), [])
    {
    }

    lemma OpenOnes()
      requires Valid()
      ensures forall o :: o in open ==> o.id < |Ledger()| && Ledger()[o.id].request == o.request
    {
    }

    /** End of session: everything still resting is cancelled. */
    method ExpireOpenOrders() returns (events: seq<Event>)
      requires Valid()
      modifies this`open, this`openByInstrument, orders
      ensures Valid()
      ensures (View(), events) == Expire(old(View()), clock.now)
    {
      hide Tracks, Resting, ExpireUpTo;
      events := [];
      var resting := open;
      ghost var now, x := clock.now, View();
      WhatRests();
      ghost var y := x;
      for n := 0 to |resting|
        invariant Reached(resting, n) <= |x.orders|
        invariant Valid() && View() == y
        invariant (y, events) == ExpireUpTo(x, now, Reached(resting, n))
      {
        var order := resting[n];
        NoneBetween(resting, x.orders, None, n);
        ExpireStep(x, now, Reached(resting, n), order.id);
        assert order == orders[order.id] && order.View() == y.orders[order.id];
        Withdraw(order);
        y := y.(orders := y.orders[order.id := order.View()]);
        var update := UpdateOf(order.View(), clock.now, "expired at the end of the session");
        events := events + [Event(order.id, update, None)];
      }
      NoneBetween(resting, x.orders, None, |resting|);
      ExpireSkips(x, now, Reached(resting, |resting|), |x.orders|);
    }

    /** Whether a stop must still wait. The bar that touches its trigger arms it and does no more. */
    method StillWaitingForTrigger(order: SimOrder, bar: Candle) returns (waiting: bool)
      requires order.View().Consistent()
      modifies order`armedAt
      ensures waiting == Waiting(old(order.View()), bar)
      ensures order.View() == if waiting then Armed(old(order.View()), bar, model) else old(order.View())
    {
      var r := order.request;
      if r.orderType != STOPLOSS_LIMIT {
        return false;
      }
      if order.armedAt.None? {
        if model.Triggers(r.side, r.trigger.value, bar) {
          order.armedAt := Some(bar.ClosesAt());
        }
        return true;
      }
      return order.armedAt.value > bar.ts;
    }

    /** One turn of the matching loop: the bar meets one order resting in its instrument. */
    method MatchOrder(order: SimOrder, bar: Candle, capacity: int, events: seq<Event>)
      returns (left: int, all: seq<Event>)
      requires Valid() && order in orders
      requires order.View().Consistent() && RestsIn(order.View(), Some(bar.instrument))
      modifies this`open, this`openByInstrument, this`fills, order
      ensures Valid()
      ensures Matching(View(), left, all)
           == MatchOne(Matching(old(View()), capacity, events), bar, clock.now, model, order.id)
    {
      hide Tracks, Resting, FillEvent, Filled;
      left, all := capacity, events;
      if order.acceptedAt > bar.ts {
        return;
      }
      ghost var before := Ledger();
      var waiting := StillWaitingForTrigger(order, bar);
      TracksKept(open, openByInstrument, before, order.id, order.View());
      assert Ledger() == before[order.id := order.View()];
      if waiting {
        return;
      }
      assert Ledger() == before;
      var r := order.request;
      var quantity := Min(r.quantity - order.filled, capacity);
      var price := model.PriceIfFilled(r.side, r.limit, bar);
      if price.None? || quantity <= 0 {
        return;
      }
      left := capacity - quantity;
      var e := FillOrder(order, quantity, price.value, MATCHED, before);
      all := events + [e];
    }

    /** A closed bar meets what rests in its instrument, walking the index while fills shorten it. */
    method MatchBar(bar: Candle) returns (events: seq<Event>)
      requires Valid() && AllConsistent(Ledger())
      modifies this`open, this`openByInstrument, this`fills, orders
      ensures Valid()
      ensures var m := Match(old(View()), bar, clock.now, model);
              View() == m.x && events == m.events
    {
      hide Tracks, Resting, MatchUpTo, MatchOne;
      var working := Entry(openByInstrument, bar.instrument);
      var capacity := model.Capacity(bar);
      events := [];
      ghost var now, cap, x, only := clock.now, capacity, View(), Some(bar.instrument);
      WhatRests();
      MatchStarts(x, bar, now, model, cap);
      assert forall j :: 0 <= j < |working| ==> working[j] in orders;
      for n := 0 to |working|
        invariant Reached(working, n) <= |x.orders| && Valid()
        invariant Matching(View(), capacity, events)
               == MatchUpTo(x, bar, now, model, cap, Reached(working, n))
      {
        var order := working[n];
        NoneBetween(working, x.orders, only, n);
        MatchStep(x, bar, now, model, cap, Reached(working, n), order.id);
        assert order == orders[order.id];
        capacity, events := MatchOrder(order, bar, capacity, events);
      }
      NoneBetween(working, x.orders, only, |working|);
      MatchSkips(x, bar, now, model, cap, Reached(working, |working|), |x.orders|);
    }
  }
}
