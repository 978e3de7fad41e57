/** What a ledger of orders and a run of events add up to, per instrument and per outcome. */
module Netting {
  import opened Basics
  import opened Market
  import opened FillModel
  import opened Exchange

  // ---- sums over the ledger --------------------------------------------------------------

  function Share(o: Order, i: Instrument): int {
    if o.request.instrument == i then o.SignedFilled() else 0
  }

  /** The signed quantity the exchange has filled in one instrument. */
  function LedgerNet(orders: seq<Order>, i: Instrument): int {
    if orders == [] then 0
    else LedgerNet(orders[..|orders| - 1], i) + Share(orders[|orders| - 1], i)
  }

  lemma {:induction false} LedgerNetUpdate(orders: seq<Order>, id: nat, o: Order, i: Instrument)
    requires id < |orders|
    ensures LedgerNet(orders[id := o], i) == LedgerNet(orders, i) + Share(o, i) - Share(orders[id], i)
  {
    var n := |orders| - 1;
    if id == n {
      assert orders[id := o][..n] == orders[..n];
    } else {
      assert orders[id := o][..n] == orders[..n][id := o];
      LedgerNetUpdate(orders[..n], id, o, i);
    }
  }

  lemma LedgerNetAppend(orders: seq<Order>, o: Order, i: Instrument)
    ensures LedgerNet(orders + [o], i) == LedgerNet(orders, i) + Share(o, i)
  {
    assert (orders + [o])[..|orders|] == orders;
  }

  // ---- outcomes --------------------------------------------------------------------------

  /** How many orders were refused, cancelled, forced by the broker, completed, or still rest. */
  datatype Outcomes = Outcomes(rejected: nat, cancelled: nat, forced: nat, done: nat, resting: nat) {
    function Plus(o: Outcomes): Outcomes {
      Outcomes(rejected + o.rejected, cancelled + o.cancelled, forced + o.forced,
               done + o.done, resting + o.resting)
    }
  }

  function One(b: bool): nat { if b then 1 else 0 }

  /** Which one of the five an order is: a forced trade is never one of ours. */
  function OutcomeOf(o: Order): Outcomes {
    var ours := !o.request.tag.SquareOffTag?;
    Outcomes(One(ours && o.status.REJECTED?), One(ours && o.status.CANCELLED?), One(!ours),
             One(ours && o.status.FILLED?), One(ours && o.IsOpen()))
  }

  function OutcomesOf(orders: seq<Order>): Outcomes {
    if orders == [] then Outcomes(0, 0, 0, 0, 0)
    else OutcomesOf(orders[..|orders| - 1]).Plus(OutcomeOf(orders[|orders| - 1]))
  }

  lemma {:induction false} OutcomesUpdate(orders: seq<Order>, id: nat, o: Order)
    requires id < |orders|
    ensures OutcomesOf(orders[id := o]).Plus(OutcomeOf(orders[id])) == OutcomesOf(orders).Plus(OutcomeOf(o))
  {
    hide OutcomeOf;
    var n := |orders| - 1;
    if id == n {
      assert orders[id := o][..n] == orders[..n];
    } else {
      assert orders[id := o][..n] == orders[..n][id := o];
      OutcomesUpdate(orders[..n], id, o);
    }
  }

  lemma OutcomesAppend(orders: seq<Order>, o: Order)
    ensures OutcomesOf(orders + [o]) == OutcomesOf(orders).Plus(OutcomeOf(o))
  {
    assert (orders + [o])[..|orders|] == orders;
  }

  /** Every order ever sent has exactly one outcome. */
  lemma {:induction false} EveryOrderHasOneOutcome(orders: seq<Order>)
    ensures var t := OutcomesOf(orders);
            t.rejected + t.cancelled + t.forced + t.done + t.resting == |orders|
  {
    if orders != [] {
      EveryOrderHasOneOutcome(orders[..|orders| - 1]);
    }
  }

  // ---- sums over events ------------------------------------------------------------------

  function EventShare(e: Event, i: Instrument): int {
    if e.fill.Some? && e.fill.value.instrument == i then e.fill.value.Signed() else 0
  }

  function EventNet(events: seq<Event>, i: Instrument): int {
    if events == [] then 0
    else EventNet(events[..|events| - 1], i) + EventShare(events[|events| - 1], i)
  }

  /** What a stream of events reports: fills, forced fills, refusals, cancellations. */
  datatype Tally = Tally(fills: nat, forced: nat, rejected: nat, cancelled: nat) {
    function Plus(t: Tally): Tally {
      Tally(fills + t.fills, forced + t.forced, rejected + t.rejected, cancelled + t.cancelled)
    }
  }

  const NoTally := Tally(0, 0, 0, 0)

  /** `EventSettler._count`. */
  function TallyOf(e: Event): Tally {
    if e.fill.Some? then Tally(1, One(e.fill.value.reason.FORCED_SQUARE_OFF?), 0, 0)
    else Tally(0, 0, One(e.update.status.REJECTED?), One(e.update.status.CANCELLED?))
  }

  function TallyAll(events: seq<Event>): Tally {
    if events == [] then NoTally
    else TallyAll(events[..|events| - 1]).Plus(TallyOf(events[|events| - 1]))
  }

  lemma EventsAppend(events: seq<Event>, e: Event)
    ensures TallyAll(events + [e]) == TallyAll(events).Plus(TallyOf(e))
    ensures forall i :: EventNet(events + [e], i) == EventNet(events, i) + EventShare(e, i)
  {
    assert (events + [e])[..|events|] == events;
  }

  // ---- what the events say of one order --------------------------------------------------

  /** The last news of an order. */
  function LastWord(events: seq<Event>, id: nat): Option<OrderUpdate> {
    if events == [] then None
    else if events[|events| - 1].orderId == id then Some(events[|events| - 1].update)
    else LastWord(events[..|events| - 1], id)
  }

  /** The quantity and the turnover of the fills reported of it. */
  function QuantityOf(events: seq<Event>, id: nat): int {
    if events == [] then 0
    else
      var e := events[|events| - 1];
      QuantityOf(events[..|events| - 1], id)
      + if e.orderId == id && e.fill.Some? then e.fill.value.quantity else 0
  }

  function CostOf(events: seq<Event>, id: nat): real {
    if events == [] then 0.0
    else
      var e := events[|events| - 1];
      CostOf(events[..|events| - 1], id)
      + if e.orderId == id && e.fill.Some? then e.fill.value.price * e.fill.value.quantity as real else 0.0
  }

  /** The news is what the order is: its terms, its status, and how much of it is filled how dear. */
  ghost predicate Says(u: OrderUpdate, o: Order) {
    && u.instrument == o.request.instrument && u.side == o.request.side && u.tag == o.request.tag
    && u.quantity == o.request.quantity && u.status == o.status && u.filledQuantity == o.filled
    && u.averagePrice == if o.filled == 0 then None else Some(o.turnover / o.filled as real)
  }

  /** What was last reported of an order is what it is, and its fills add up to it. */
  ghost predicate Reported(o: Order, events: seq<Event>, id: nat) {
    && LastWord(events, id).Some? && Says(LastWord(events, id).value, o)
    && QuantityOf(events, id) == o.filled && CostOf(events, id) == o.turnover
  }

  ghost predicate AllReported(orders: seq<Order>, events: seq<Event>) {
    && (forall k :: 0 <= k < |events| ==> events[k].orderId < |orders|)
    && forall id: nat :: id < |orders| ==> Reported(orders[id], events, id)
  }

  /** The fills are numbered from one, in the order of the events. */
  ghost predicate Numbered(events: seq<Event>) {
    events == [] ||
    (var e := events[|events| - 1];
     Numbered(events[..|events| - 1]) && (e.fill.Some? ==> e.fill.value.sequence == TallyAll(events).fills))
  }

  lemma OneMoreWord(events: seq<Event>, e: Event, id: nat)
    ensures LastWord(events + [e], id) == if e.orderId == id then Some(e.update) else LastWord(events, id)
    ensures QuantityOf(events + [e], id)
         == QuantityOf(events, id) + if e.orderId == id && e.fill.Some? then e.fill.value.quantity else 0
    ensures CostOf(events + [e], id)
         == CostOf(events, id)
            + if e.orderId == id && e.fill.Some? then e.fill.value.price * e.fill.value.quantity as real else 0.0
  {
    assert (events + [e])[..|events|] == events;
  }

  lemma {:induction false} NoWordYet(events: seq<Event>, id: nat)
    requires forall k :: 0 <= k < |events| ==> events[k].orderId != id
    ensures LastWord(events, id) == None && QuantityOf(events, id) == 0 && CostOf(events, id) == 0.0
  {
    if events != [] {
      NoWordYet(events[..|events| - 1], id);
    }
  }

  /** One event more: it says what the order has become, and by how much more it is filled. */
  lemma ReportedStep(orders: seq<Order>, events: seq<Event>, id: nat, o: Order, e: Event)
    requires AllReported(orders, events) && id < |orders| && e.orderId == id && Says(e.update, o)
    requires o.filled == orders[id].filled + if e.fill.Some? then e.fill.value.quantity else 0
    requires o.turnover
          == orders[id].turnover + if e.fill.Some? then e.fill.value.price * e.fill.value.quantity as real else 0.0
    ensures AllReported(orders[id := o], events + [e])
  {
    hide LastWord, QuantityOf, CostOf, Says;
    var orders' := orders[id := o];
    forall k: nat | k < |orders'| ensures Reported(orders'[k], events + [e], k) {
      OneMoreWord(events, e, k);
      assert Reported(orders[k], events, k);
    }
  }

  lemma ReportedAppend(orders: seq<Order>, events: seq<Event>, o: Order, e: Event)
    requires AllReported(orders, events) && e.orderId == |orders| && Says(e.update, o)
    requires o.filled == if e.fill.Some? then e.fill.value.quantity else 0
    requires o.turnover == if e.fill.Some? then e.fill.value.price * e.fill.value.quantity as real else 0.0
    ensures AllReported(orders + [o], events + [e])
  {
    hide LastWord, QuantityOf, CostOf, Says;
    NoWordYet(events, |orders|);
    var orders' := orders + [o];
    forall k: nat | k < |orders'| ensures Reported(orders'[k], events + [e], k) {
      OneMoreWord(events, e, k);
      assert k < |orders| ==> Reported(orders[k], events, k);
    }
  }

  lemma NumberedStep(events: seq<Event>, e: Event)
    requires Numbered(events) && (e.fill.Some? ==> e.fill.value.sequence == TallyAll(events).fills + 1)
    ensures Numbered(events + [e])
  {
    hide TallyAll;
    EventsAppend(events, e);
    assert (events + [e])[..|events|] == events;
  }

  // ---- the ledger and the events it emitted tell one story -------------------------------

  /** Exchange state against every event ever emitted. */
  ghost predicate Agrees(x: ExchangeState, events: seq<Event>) {
    var t, o := TallyAll(events), OutcomesOf(x.orders);
    && t.fills == x.fills && t.forced == o.forced
    && t.rejected == o.rejected && t.cancelled == o.cancelled
    && (forall i :: EventNet(events, i) == LedgerNet(x.orders, i))
    && AllReported(x.orders, events) && Numbered(events) && TagsAre(x)
  }

  ghost predicate Bookable(f: Fill) { f.quantity > 0 && f.instrument != "" && f.run != "" }

  ghost predicate FillsBookable(events: seq<Event>) {
    forall k :: 0 <= k < |events| && events[k].fill.Some? ==> Bookable(events[k].fill.value)
  }

  /** One order changes and one event says so. */
  lemma AgreesStep(x: ExchangeState, events: seq<Event>, id: nat, o: Order, fills: nat, e: Event)
    requires Agrees(x, events) && id < |x.orders|
    requires o.request == x.orders[id].request && x.orders[id].IsOpen()
    requires !o.request.tag.SquareOffTag? && fills == x.fills + One(e.fill.Some?)
    requires e.fill.Some? ==>
               && !e.fill.value.reason.FORCED_SQUARE_OFF? && (o.status.FILLED? || o.IsOpen())
               && e.fill.value.instrument == o.request.instrument
               && e.fill.value.Signed() == o.SignedFilled() - x.orders[id].SignedFilled()
               && e.fill.value.quantity == o.filled - x.orders[id].filled
               && e.fill.value.price * e.fill.value.quantity as real == o.turnover - x.orders[id].turnover
               && e.fill.value.sequence == x.fills + 1
    requires e.fill.None? ==>
               && o.status == CANCELLED && o.filled == x.orders[id].filled && o.turnover == x.orders[id].turnover
    requires e.orderId == id && Says(e.update, o)
    ensures Agrees(x.(orders := x.orders[id := o], fills := fills), events + [e])
  {
    hide OutcomesOf, LedgerNet, EventNet, TallyAll, AllReported, Numbered, TagsAre;
    TagsKept(x, x.(orders := x.orders[id := o], fills := fills));
    EventsAppend(events, e);
    ReportedStep(x.orders, events, id, o, e);
    NumberedStep(events, e);
    OutcomesUpdate(x.orders, id, o);
    var orders' := x.orders[id := o];
    forall i ensures EventNet(events + [e], i) == LedgerNet(orders', i) {
      LedgerNetUpdate(x.orders, id, o, i);
      assert EventNet(events, i) == LedgerNet(x.orders, i);
    }
  }

  /** A new order joins the ledger and one event says so. */
  lemma AgreesAppend(x: ExchangeState, events: seq<Event>, o: Order, tags: set<Tag>, fills: nat, e: Event)
    requires Agrees(x, events)
    requires fills == x.fills + One(e.fill.Some?) && o.request.tag.SquareOffTag? == e.fill.Some?
    requires e.fill.Some? ==>
               && e.fill.value.reason.FORCED_SQUARE_OFF?
               && e.fill.value.instrument == o.request.instrument
               && e.fill.value.Signed() == o.SignedFilled() && e.fill.value.quantity == o.filled
               && e.fill.value.price * o.filled as real == o.turnover && e.fill.value.sequence == x.fills + 1
    requires e.fill.None? ==> !o.status.CANCELLED? && o.filled == 0 && o.turnover == 0.0
    requires e.orderId == |x.orders| && Says(e.update, o)
    requires tags == x.tags + {o.request.tag} && o.request.tag !in x.tags
    ensures Agrees(ExchangeState(x.orders + [o], tags, fills), events + [e])
  {
    hide OutcomesOf, LedgerNet, EventNet, TallyAll, AllReported, Numbered, TagsAre;
    TagsGrow(x, o, fills);
    EventsAppend(events, e);
    ReportedAppend(x.orders, events, o, e);
    NumberedStep(events, e);
    OutcomesAppend(x.orders, o);
    forall i ensures EventNet(events + [e], i) == LedgerNet(x.orders + [o], i) {
      LedgerNetAppend(x.orders, o, i);
      assert EventNet(events, i) == LedgerNet(x.orders, i);
    }
  }

  /** A matched bar, order by order. */
  lemma {:induction false} AgreesMatch(
    x: ExchangeState, events: seq<Event>, bar: Candle, now: int, model: BarFillModel, capacity: int, k: nat)
    requires Agrees(x, events) && AllConsistent(x.orders) && capacity >= 0 && k <= |x.orders|
    requires forall id :: 0 <= id < |x.orders| && x.orders[id].IsOpen() ==>
               !x.orders[id].request.tag.SquareOffTag?
    ensures var m := MatchUpTo(x, bar, now, model, capacity, k);
            Agrees(m.x, events + m.events) && FillsBookable(m.events)
  {
    hide Agrees, Demand, DemandBefore, FillsBookable, MatchOne;
    if k == 0 {
      NoneBookable();
      assert events + [] == events;
    } else {
      AgreesMatch(x, events, bar, now, model, capacity, k - 1);
      CapacityLeft(x, bar, now, model, capacity, k - 1);
      MatchFrame(x, bar, now, model, capacity, k - 1);
      var m := MatchUpTo(x, bar, now, model, capacity, k - 1);
      AgreesMatchOne(m, events, bar, now, model, k - 1);
    }
  }

  lemma NoneBookable()
    ensures FillsBookable([])
  {
  }

  lemma NoMoreBookable(events: seq<Event>, e: Event)
    requires FillsBookable(events) && e.fill.None?
    ensures FillsBookable(events + [e])
  {
  }

  lemma AgreesMatchOne(
    m: Matching, events: seq<Event>, bar: Candle, now: int, model: BarFillModel, id: nat)
    requires id < |m.x.orders| && m.x.orders[id].Consistent()
    requires m.x.orders[id].IsOpen() ==> !m.x.orders[id].request.tag.SquareOffTag?
    requires Agrees(m.x, events + m.events) && FillsBookable(m.events)
    ensures var r := MatchOne(m, bar, now, model, id);
            Agrees(r.x, events + r.events) && FillsBookable(r.events)
  {
    hide EffectOn, Agrees, OutcomesOf, LedgerNet, EventNet, TallyAll;
    var o := m.x.orders[id];
    TradesOpen(o, bar, m.capacity, model);
    match EffectOn(o, bar, m.capacity, model)
    case Nothing =>
    case Arms => AgreesArm(m.x, events + m.events, id, o.(armedAt := Some(bar.ClosesAt())));
    case Trades(quantity, price) =>
      var e := FillEvent(id, o, quantity, price, m.x.fills + 1, now, MATCHED);
      FillAddsUp(o, quantity, price);
      AgreesStep(m.x, events + m.events, id, Filled(o, quantity, price), m.x.fills + 1, e);
      assert events + (m.events + [e]) == events + m.events + [e];
  }

  lemma TradesOpen(o: Order, bar: Candle, capacity: int, model: BarFillModel)
    ensures var e := EffectOn(o, bar, capacity, model);
            && (e.Trades? ==> o.IsOpen() && 0 < e.quantity <= o.Remaining())
  {
  }

  lemma FillAddsUp(o: Order, quantity: int, price: real)
    ensures Filled(o, quantity, price).SignedFilled() == o.SignedFilled() + o.request.side.Sign() * quantity
  {
    assert o.request.side.Sign() * (o.filled + quantity)
        == o.request.side.Sign() * o.filled + o.request.side.Sign() * quantity;
  }

  lemma AgreesArm(x: ExchangeState, events: seq<Event>, id: nat, o: Order)
    requires Agrees(x, events) && id < |x.orders|
    requires o.request == x.orders[id].request && o.status == x.orders[id].status
    requires o.filled == x.orders[id].filled && o.turnover == x.orders[id].turnover
    ensures Agrees(x.(orders := x.orders[id := o]), events)
  {
    hide OutcomesOf, LedgerNet, EventNet, TallyAll, LastWord, QuantityOf, CostOf, Numbered, TagsAre;
    TagsKept(x, x.(orders := x.orders[id := o]));
    assert forall k: nat :: k < |x.orders| && Reported(x.orders[k], events, k) ==>
             Reported(x.orders[id := o][k], events, k);
    OutcomesUpdate(x.orders, id, o);
    forall i ensures LedgerNet(x.orders[id := o], i) == LedgerNet(x.orders, i) {
      LedgerNetUpdate(x.orders, id, o, i);
    }
  }

  lemma {:induction false} AgreesExpire(x: ExchangeState, events: seq<Event>, now: int, k: nat)
    requires Agrees(x, events) && k <= |x.orders|
    requires forall id :: 0 <= id < |x.orders| && x.orders[id].IsOpen() ==>
               !x.orders[id].request.tag.SquareOffTag?
    ensures var (y, out) := ExpireUpTo(x, now, k);
            Agrees(y, events + out) && FillsBookable(out)
  {
    hide Agrees, OutcomesOf, LedgerNet, EventNet, TallyAll, FillsBookable;
    if k == 0 {
      NoneBookable();
      assert events + [] == events;
    } else {
      AgreesExpire(x, events, now, k - 1);
      ExpireFrame(x, now, k - 1);
      var (y, out) := ExpireUpTo(x, now, k - 1);
      if y.orders[k - 1].IsOpen() {
        var o := Cancelled(y.orders[k - 1]);
        var e := Event(k - 1, UpdateOf(o, now, "expired at the end of the session"), None);
        AgreesStep(y, events + out, k - 1, o, y.fills, e);
        NoMoreBookable(out, e);
        assert events + (out + [e]) == events + out + [e];
      }
    }
  }

  /** The count of forced trades depends on the requests alone. */
  lemma {:induction false} ForcedByRequest(a: seq<Order>, b: seq<Order>)
    requires |a| == |b| && forall k :: 0 <= k < |a| ==> a[k].request == b[k].request
    ensures OutcomesOf(a).forced == OutcomesOf(b).forced
  {
    if a != [] {
      ForcedByRequest(a[..|a| - 1], b[..|b| - 1]);
    }
  }
}
