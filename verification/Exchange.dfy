/** The simulated exchange as a value: every order ever placed, in acceptance order, and what each
    operation does to that ledger. An order is named by its place in the ledger. */
module Exchange {
  import opened Basics
  import opened Market
  import opened FillModel

  datatype Order = Order(
    request: Request, acceptedAt: int, status: Status, filled: int, turnover: real,
    armedAt: Option<int>)
  {
    function Remaining(): int { request.quantity - filled }

    predicate IsOpen() { !status.Terminal() }

    /** How status and filled quantity belong together at every moment of an order's life. */
    ghost predicate Consistent() {
      && request.Valid()
      && 0 <= filled <= request.quantity
      && (status.FILLED? <==> filled == request.quantity)
      && (status.WORKING? || status.REJECTED? ==> filled == 0)
      && (status.PARTIALLY_FILLED? ==> filled > 0)
      && (armedAt.Some? ==> request.orderType.STOPLOSS_LIMIT?)
    }

    function SignedFilled(): int { request.side.Sign() * filled }
  }

  datatype ExchangeState = ExchangeState(orders: seq<Order>, tags: set<Tag>, fills: nat)

  // ---- events ----------------------------------------------------------------------------

  function UpdateOf(o: Order, now: int, message: string): OrderUpdate {
    OrderUpdate(o.request.instrument, o.request.side, o.status, o.request.quantity, o.filled, now,
                if o.filled != 0 then Some(o.turnover / o.filled as real) else None,
                o.request.tag, message)
  }

  function Filled(o: Order, quantity: int, price: real): Order {
    var done := o.filled + quantity;
    o.(filled := done,
       turnover := o.turnover + price * quantity as real,
       status := if o.request.quantity - done == 0 then FILLED else PARTIALLY_FILLED)
  }

  function FillEvent(id: nat, o: Order, quantity: int, price: real, sequence: nat, now: int,
                     reason: FillReason): Event
  {
    var r := o.request;
    var fill := Fill(sequence, id, r.tag, r.instrument, r.side, quantity, price, now, r.run, reason);
    Event(id, UpdateOf(Filled(o, quantity, price), now, ""), Some(fill))
  }

  // ---- orders ----------------------------------------------------------------------------

  function Accepted(r: Request, now: int, rejection: Option<string>): Order {
    Order(r, now, if rejection.Some? then REJECTED else WORKING, 0, 0.0, None)
  }

  function Submit(x: ExchangeState, r: Request, now: int, rejection: Option<string>)
    : Result<(ExchangeState, Event), Fault>
  {
    if r.tag in x.tags then Err(DuplicateTag)
    else
      var order := Accepted(r, now, rejection);
      var message := if rejection.Some? then rejection.value else "";
      Ok((ExchangeState(x.orders + [order], x.tags + {r.tag}, x.fills),
          Event(|x.orders|, UpdateOf(order, now, message), None)))
  }

  function Cancelled(o: Order): Order { o.(status := CANCELLED) }

  function Cancel(x: ExchangeState, id: nat, now: int): Result<(ExchangeState, Event), Fault> {
    if id >= |x.orders| then Err(UnknownOrder)
    else if !x.orders[id].IsOpen() then Err(OrderNotOpen)
    else
      var order := Cancelled(x.orders[id]);
      Ok((x.(orders := x.orders[id := order]), Event(id, UpdateOf(order, now, "cancelled"), None)))
  }

  /** The broker's own closing trade: it never rests and it does not look at the bar. */
  function ForcedRequest(
    x: ExchangeState, instrument: Instrument, side: Side, quantity: int, price: real, run: RunId): Request
  {
    Request(instrument, side, LIMIT, quantity, price, SquareOffTag(x.fills + 1), run, None)
  }

  function SquareOff(x: ExchangeState, instrument: Instrument, side: Side, quantity: int, price: real,
                     run: RunId, now: int): Result<(ExchangeState, Event), Fault>
  {
    var r := ForcedRequest(x, instrument, side, quantity, price, run);
    if !r.Valid() then Err(InvalidRequest(r))
    else
      var order := Accepted(r, now, None);
      Ok((ExchangeState(x.orders + [Filled(order, quantity, price)], x.tags + {r.tag}, x.fills + 1),
          FillEvent(|x.orders|, order, quantity, price, x.fills + 1, now, FORCED_SQUARE_OFF)))
  }

  /** The tags in use are those of the orders, and no two orders share one. */
  ghost predicate TagsAre(x: ExchangeState) {
    && (forall k :: 0 <= k < |x.orders| ==> x.orders[k].request.tag in x.tags)
    && (forall t :: t in x.tags ==> exists k :: 0 <= k < |x.orders| && x.orders[k].request.tag == t)
    && forall j, k :: 0 <= j < k < |x.orders| ==> x.orders[j].request.tag != x.orders[k].request.tag
  }

  lemma TagsKept(x: ExchangeState, x': ExchangeState)
    requires TagsAre(x) && x'.tags == x.tags && |x'.orders| == |x.orders|
    requires forall k :: 0 <= k < |x.orders| ==> x'.orders[k].request == x.orders[k].request
    ensures TagsAre(x')
  {
    forall t | t in x'.tags ensures exists k :: 0 <= k < |x'.orders| && x'.orders[k].request.tag == t {
      var k :| 0 <= k < |x.orders| && x.orders[k].request.tag == t;
      assert x'.orders[k].request.tag == t;
    }
  }

  lemma TagsGrow(x: ExchangeState, o: Order, fills: nat)
    requires TagsAre(x) && o.request.tag !in x.tags
    ensures TagsAre(ExchangeState(x.orders + [o], x.tags + {o.request.tag}, fills))
  {
    var orders := x.orders + [o];
    assert orders[|x.orders|] == o;
    forall t | t in x.tags ensures exists k :: 0 <= k < |orders| && orders[k].request.tag == t {
      var k :| 0 <= k < |x.orders| && x.orders[k].request.tag == t;
      assert orders[k].request.tag == t;
    }
  }

  /** A request is taken, by acceptance or by refusal, exactly when no order has had its tag. */
  lemma SubmitsIff(x: ExchangeState, r: Request, now: int, rejection: Option<string>)
    requires TagsAre(x)
    ensures Submit(x, r, now, rejection).Ok? <==>
              forall k :: 0 <= k < |x.orders| ==> x.orders[k].request.tag != r.tag
    ensures Submit(x, r, now, rejection).Ok? ==>
              var (x', e) := Submit(x, r, now, rejection).value;
              && TagsAre(x') && x'.fills == x.fills && |x'.orders| == |x.orders| + 1 && x.orders <= x'.orders
              && var o := x'.orders[|x.orders|];
                 && o.request == r && o.acceptedAt == now && o.filled == 0 && o.armedAt == None
                 && o.status == (if rejection == None then WORKING else REJECTED)
                 && e.orderId == |x.orders| && e.update.ts == now && e.update.status == o.status
  {
    if r.tag !in x.tags {
      TagsGrow(x, Accepted(r, now, rejection), x.fills);
    }
  }

  /** An order is cancelled exactly when it exists and is still working, whole or in part. */
  lemma CancelsIff(x: ExchangeState, id: nat, now: int)
    ensures var c := Cancel(x, id, now);
            if id >= |x.orders| then c == Err(UnknownOrder)
            else if x.orders[id].status != WORKING && x.orders[id].status != PARTIALLY_FILLED then
              c == Err(OrderNotOpen)
            else
              && c.Ok? && c.value.0 == x.(orders := x.orders[id := x.orders[id].(status := CANCELLED)])
              && c.value.1.orderId == id && c.value.1.update.ts == now && c.value.1.update.status == CANCELLED
              && c.value.1.fill == None
  {
  }

  // ---- time: expiry and matching, as scans of the whole ledger ---------------------------

  function ExpireUpTo(x: ExchangeState, now: int, k: nat): (r: (ExchangeState, seq<Event>))
    requires k <= |x.orders|
    ensures |r.0.orders| == |x.orders|
  {
    if k == 0 then (x, [])
    else
      var (before, events) := ExpireUpTo(x, now, k - 1);
      if before.orders[k - 1].IsOpen() then
        var order := Cancelled(before.orders[k - 1]);
        (before.(orders := before.orders[k - 1 := order]),
         events + [Event(k - 1, UpdateOf(order, now, "expired at the end of the session"), None)])
      else (before, events)
  }

  /** End of session: every order still open is cancelled, oldest first. */
  function Expire(x: ExchangeState, now: int): (ExchangeState, seq<Event>) {
    ExpireUpTo(x, now, |x.orders|)
  }

  datatype Matching = Matching(x: ExchangeState, capacity: int, events: seq<Event>)

  /** Has to wait: a stop-limit whose trigger has not fired on an earlier, already closed bar. */
  predicate Waiting(o: Order, bar: Candle) {
    o.request.orderType.STOPLOSS_LIMIT? && (o.armedAt.None? || o.armedAt.value > bar.ts)
  }

  function Armed(o: Order, bar: Candle, model: BarFillModel): Order {
    if && o.request.orderType.STOPLOSS_LIMIT? && o.armedAt.None? && o.request.trigger.Some?
       && model.Triggers(o.request.side, o.request.trigger.value, bar)
    then o.(armedAt := Some(bar.ClosesAt()))
    else o
  }

  predicate RestsIn(o: Order, only: Option<Instrument>) {
    o.IsOpen() && (only.Some? ==> o.request.instrument == only.value)
  }

  /** What a bar with so much volume left does to one order. */
  datatype Effect = Nothing | Arms | Trades(quantity: int, price: real)

  function EffectOn(o: Order, bar: Candle, capacity: int, model: BarFillModel): Effect {
    if !RestsIn(o, Some(bar.instrument)) || o.acceptedAt > bar.ts then Nothing
    else if Waiting(o, bar) then (if Armed(o, bar, model) == o then Nothing else Arms)
    else
      var quantity := Min(o.Remaining(), capacity);
      var price := model.PriceIfFilled(o.request.side, o.request.limit, bar);
      if price.None? || quantity <= 0 then Nothing else Trades(quantity, price.value)
  }

  /** The bar acts on one order of the ledger. */
  function MatchOne(m: Matching, bar: Candle, now: int, model: BarFillModel, id: nat): (r: Matching)
    requires id < |m.x.orders|
    ensures |r.x.orders| == |m.x.orders|
  {
    var o := m.x.orders[id];
    match EffectOn(o, bar, m.capacity, model)
    case Nothing => m
    case Arms => m.(x := m.x.(orders := m.x.orders[id := o.(armedAt := Some(bar.ClosesAt()))]))
    case Trades(quantity, price) =>
      Matching(ExchangeState(m.x.orders[id := Filled(o, quantity, price)], m.x.tags, m.x.fills + 1),
               m.capacity - quantity,
               m.events + [FillEvent(id, o, quantity, price, m.x.fills + 1, now, MATCHED)])
  }

  /** The reference matcher: it looks at EVERY order ever placed, the first `k` of them. */
  function MatchUpTo(x: ExchangeState, bar: Candle, now: int, model: BarFillModel, capacity: int, k: nat): (m: Matching)
    requires k <= |x.orders|
    ensures |m.x.orders| == |x.orders|
  {
    if k == 0 then Matching(x, capacity, [])
    else MatchOne(MatchUpTo(x, bar, now, model, capacity, k - 1), bar, now, model, k - 1)
  }

  function Match(x: ExchangeState, bar: Candle, now: int, model: BarFillModel): Matching {
    MatchUpTo(x, bar, now, model, model.Capacity(bar), |x.orders|)
  }

  // ---- the resting orders ----------------------------------------------------------------

  /** Ids of the open orders (in one instrument, or in all), in acceptance order. */
  function Resting(orders: seq<Order>, only: Option<Instrument>): seq<nat> {
    if orders == [] then []
    else
      var n := |orders| - 1;
      Resting(orders[..n], only) + (if RestsIn(orders[n], only) then [n] else [])
  }

  lemma {:induction false} RestingExactly(orders: seq<Order>, only: Option<Instrument>)
    ensures forall id: nat :: id in Resting(orders, only) <==> id < |orders| && RestsIn(orders[id], only)
    ensures forall i, j :: 0 <= i < j < |Resting(orders, only)| ==>
                             Resting(orders, only)[i] < Resting(orders, only)[j]
  {
    if orders != [] {
      var n := |orders| - 1;
      RestingExactly(orders[..n], only);
      var front := Resting(orders[..n], only);
      assert forall i :: 0 <= i < |front| ==> front[i] in front;
      assert forall id :: id in front ==> id < n && orders[..n][id] == orders[id];
    }
  }

  lemma {:induction false} RestingAppend(orders: seq<Order>, o: Order, only: Option<Instrument>)
    ensures Resting(orders + [o], only)
         == Resting(orders, only) + (if RestsIn(o, only) then [|orders|] else [])
  {
    assert (orders + [o])[..|orders|] == orders;
  }

  /** Changing an order without closing it leaves the resting list alone. */
  lemma {:induction false} RestingKept(orders: seq<Order>, id: nat, o: Order, only: Option<Instrument>)
    requires id < |orders|
    requires RestsIn(o, only) <==> RestsIn(orders[id], only)
    ensures Resting(orders[id := o], only) == Resting(orders, only)
  {
    var n := |orders| - 1;
    if id == n {
      assert orders[id := o][..n] == orders[..n];
    } else {
      assert orders[id := o][..n] == orders[..n][id := o];
      RestingKept(orders[..n], id, o, only);
    }
  }

  /** Closing an order takes exactly that id out of the resting list. */
  lemma {:induction false} RestingClosed(orders: seq<Order>, id: nat, o: Order, only: Option<Instrument>)
    requires id < |orders|
    requires !RestsIn(o, only)
    ensures Resting(orders[id := o], only) == Without(Resting(orders, only), id)
  {
    hide Resting, Without;
    var n := |orders| - 1;
    var front, last := orders[..n], orders[n];
    assert orders == front + [last];
    RestingAppend(front, last, only);
    RestingExactly(front, only);
    WithoutAppend(Resting(front, only), if RestsIn(last, only) then [n] else [], id);
    WithoutOne(n, id);
    if id == n {
      assert orders[id := o] == front + [o];
      RestingAppend(front, o, only);
      WithoutAbsent(Resting(front, only), id);
    } else {
      assert orders[id := o] == front[id := o] + [last];
      RestingAppend(front[id := o], last, only);
      RestingClosed(front, id, o, only);
    }
  }

  // ---- what a scan touches ---------------------------------------------------------------

  /** What a bar may do to an order: nothing, unless it rests in the bar's instrument; it is the same
      request, accepted at the same instant, and a stop once armed stays armed as it was. */
  ghost predicate Kept(o: Order, o': Order, bar: Candle) {
    && o'.request == o.request && o'.acceptedAt == o.acceptedAt
    && (!RestsIn(o, Some(bar.instrument)) ==> o' == o)
    && (o.armedAt.Some? ==> o'.armedAt == o.armedAt)
  }

  /** Scanning the first `k` orders leaves the later ones and the tags alone. */
  lemma {:induction false} MatchFrame(
    x: ExchangeState, bar: Candle, now: int, model: BarFillModel, capacity: int, k: nat)
    requires k <= |x.orders|
    ensures var m := MatchUpTo(x, bar, now, model, capacity, k);
            && m.x.tags == x.tags && m.x.fills >= x.fills
            && (forall i :: k <= i < |x.orders| ==> m.x.orders[i] == x.orders[i])
            && (forall i :: 0 <= i < |x.orders| ==> Kept(x.orders[i], m.x.orders[i], bar))
  {
    if k != 0 {
      MatchFrame(x, bar, now, model, capacity, k - 1);
    }
  }

  /** Orders that do not rest in the bar's instrument can be skipped: this is what makes looking
      only at the instrument's index the same as looking at everything. */
  lemma {:induction false} MatchSkips(
    x: ExchangeState, bar: Candle, now: int, model: BarFillModel, capacity: int, a: nat, b: nat)
    requires a <= b <= |x.orders|
    requires forall i :: a <= i < b ==> !RestsIn(x.orders[i], Some(bar.instrument))
    ensures MatchUpTo(x, bar, now, model, capacity, a) == MatchUpTo(x, bar, now, model, capacity, b)
    decreases b
  {
    if a < b {
      MatchFrame(x, bar, now, model, capacity, b - 1);
      MatchSkips(x, bar, now, model, capacity, a, b - 1);
    }
  }

  lemma MatchStarts(x: ExchangeState, bar: Candle, now: int, model: BarFillModel, capacity: int)
    ensures MatchUpTo(x, bar, now, model, capacity, 0) == Matching(x, capacity, [])
  {
  }

  /** From one resting order to the next, the bar acts on just that order. */
  lemma MatchStep(
    x: ExchangeState, bar: Candle, now: int, model: BarFillModel, capacity: int, a: nat, id: nat)
    requires a <= id < |x.orders|
    requires forall i :: a <= i < id ==> !RestsIn(x.orders[i], Some(bar.instrument))
    ensures var m := MatchUpTo(x, bar, now, model, capacity, a);
            && m.x.orders[id] == x.orders[id]
            && MatchUpTo(x, bar, now, model, capacity, id + 1) == MatchOne(m, bar, now, model, id)
  {
    MatchSkips(x, bar, now, model, capacity, a, id);
    MatchFrame(x, bar, now, model, capacity, id);
  }

  lemma {:induction false} ExpireFrame(x: ExchangeState, now: int, k: nat)
    requires k <= |x.orders|
    ensures var y := ExpireUpTo(x, now, k).0;
            && y.tags == x.tags && y.fills == x.fills
            && (forall i :: k <= i < |x.orders| ==> y.orders[i] == x.orders[i])
            && (forall i :: 0 <= i < k ==>
                  y.orders[i] == if x.orders[i].IsOpen() then Cancelled(x.orders[i]) else x.orders[i])
  {
    if k != 0 {
      ExpireFrame(x, now, k - 1);
    }
  }

  /** Every matched fill among some events is of an order in the ledger, and no worse than its limit. */
  ghost predicate FillsWithinLimits(orders: seq<Order>, events: seq<Event>) {
    forall k :: 0 <= k < |events| && events[k].fill.Some? && events[k].fill.value.reason.MATCHED? ==>
      var f := events[k].fill.value;
      && f.orderId < |orders|
      && var r := orders[f.orderId].request;
         f.instrument == r.instrument && f.side == r.side && WithinLimit(r.side, r.limit, f.price)
  }

  /** Requests never change, so fills stay what they were; and more of them may join. */
  lemma FillsStayWithin(orders: seq<Order>, orders': seq<Order>, events: seq<Event>, more: seq<Event>)
    requires FillsWithinLimits(orders, events) && FillsWithinLimits(orders', more) && |orders| <= |orders'|
    requires forall k :: 0 <= k < |orders| ==> orders'[k].request == orders[k].request
    ensures FillsWithinLimits(orders', events + more)
  {
  }

  /** Whatever a bar matches, it matches within the order's limit. */
  lemma {:induction false} MatchWithinLimits(
    x: ExchangeState, bar: Candle, now: int, model: BarFillModel, capacity: int, k: nat)
    requires k <= |x.orders|
    ensures var m := MatchUpTo(x, bar, now, model, capacity, k);
            FillsWithinLimits(m.x.orders, m.events)
  {
    hide MatchOne, Kept;
    if k != 0 {
      MatchWithinLimits(x, bar, now, model, capacity, k - 1);
      MatchOneWithinLimits(MatchUpTo(x, bar, now, model, capacity, k - 1), bar, now, model, k - 1);
    }
  }

  lemma MatchOneWithinLimits(m: Matching, bar: Candle, now: int, model: BarFillModel, id: nat)
    requires id < |m.x.orders| && FillsWithinLimits(m.x.orders, m.events)
    ensures var r := MatchOne(m, bar, now, model, id); FillsWithinLimits(r.x.orders, r.events)
  {
    var o := m.x.orders[id];
    model.FillPriceIsWithinLimit(o.request.side, o.request.limit, bar);
  }

  /** After the session's expiry no order rests, in any instrument. */
  lemma ExpireLeavesNoneResting(x: ExchangeState, now: int, only: Option<Instrument>)
    ensures Resting(Expire(x, now).0.orders, only) == []
  {
    ExpireFrame(x, now, |x.orders|);
    var orders := Expire(x, now).0.orders;
    NothingOpen(orders, only);
  }

  lemma {:induction false} NothingOpen(orders: seq<Order>, only: Option<Instrument>)
    requires forall i :: 0 <= i < |orders| ==> !orders[i].IsOpen()
    ensures Resting(orders, only) == []
  {
    if orders != [] {
      NothingOpen(orders[..|orders| - 1], only);
    }
  }

  lemma {:induction false} ExpireSkips(x: ExchangeState, now: int, a: nat, b: nat)
    requires a <= b <= |x.orders|
    requires forall i :: a <= i < b ==> !x.orders[i].IsOpen()
    ensures ExpireUpTo(x, now, a) == ExpireUpTo(x, now, b)
    decreases b
  {
    if a < b {
      ExpireFrame(x, now, b - 1);
      ExpireSkips(x, now, a, b - 1);
    }
  }

  /** From one open order to the next, expiry cancels just that order. */
  lemma ExpireStep(x: ExchangeState, now: int, a: nat, id: nat)
    requires a <= id < |x.orders| && x.orders[id].IsOpen()
    requires forall i :: a <= i < id ==> !x.orders[i].IsOpen()
    ensures var (y, events) := ExpireUpTo(x, now, a);
            var order := Cancelled(x.orders[id]);
            && y.orders[id] == x.orders[id]
            && ExpireUpTo(x, now, id + 1) == (
                 y.(orders := y.orders[id := order]),
                 events + [Event(id, UpdateOf(order, now, "expired at the end of the session"), None)])
  {
    ExpireSkips(x, now, a, id);
    ExpireFrame(x, now, id);
  }

  /** Expiry reports one cancellation, now, of each order that was still working, whole or in part, oldest
      first, and changes nothing else. */
  lemma {:induction false} ExpiryReports(x: ExchangeState, now: int, k: nat)
    requires k <= |x.orders|
    ensures var (y, events) := ExpireUpTo(x, now, k);
            && (forall j :: 0 <= j < |events| ==>
                  && events[j].orderId < k && events[j].fill == None
                  && events[j].update.status == CANCELLED && events[j].update.ts == now)
            && (forall i, j :: 0 <= i < j < |events| ==> events[i].orderId < events[j].orderId)
            && (forall id: nat :: id < k ==>
                  ((exists j :: 0 <= j < |events| && events[j].orderId == id) <==>
                   x.orders[id].status == WORKING || x.orders[id].status == PARTIALLY_FILLED))
  {
    if k != 0 {
      ExpiryReports(x, now, k - 1);
      ExpireFrame(x, now, k - 1);
      var (y, events) := ExpireUpTo(x, now, k - 1);
      var more := ExpireUpTo(x, now, k).1;
      assert forall j :: 0 <= j < |events| ==> more[j] == events[j];
      if y.orders[k - 1].IsOpen() {
        assert more[|events|].orderId == k - 1;
      }
    }
  }

  // ---- one bar's liquidity ---------------------------------------------------------------

  /** How much of this order the bar would fill if its volume were unlimited. */
  function Demand(o: Order, bar: Candle, model: BarFillModel): int {
    if && RestsIn(o, Some(bar.instrument)) && o.acceptedAt <= bar.ts && !Waiting(o, bar)
       && model.PriceIfFilled(o.request.side, o.request.limit, bar).Some?
    then o.Remaining()
    else 0
  }

  function DemandBefore(orders: seq<Order>, bar: Candle, model: BarFillModel, k: nat): int
    requires k <= |orders|
  {
    if k == 0 then 0
    else DemandBefore(orders, bar, model, k - 1) + Demand(orders[k - 1], bar, model)
  }

  /** What the order's place in the line entitles it to. */
  function Allotted(orders: seq<Order>, bar: Candle, model: BarFillModel, capacity: int, i: nat): int
    requires i < |orders|
  {
    Min(Demand(orders[i], bar, model),
        Max(0, capacity - DemandBefore(orders, bar, model, i)))
  }

  ghost predicate AllConsistent(orders: seq<Order>) {
    forall i :: 0 <= i < |orders| ==> orders[i].Consistent()
  }

  /** The bar gives one order the smaller of what the order wants and what the bar has left. */
  lemma OneAllocation(m: Matching, bar: Candle, now: int, model: BarFillModel, id: nat)
    requires id < |m.x.orders| && m.x.orders[id].Consistent() && m.capacity >= 0
    ensures var r := MatchOne(m, bar, now, model, id);
            var o := m.x.orders[id];
            var got := Min(Demand(o, bar, model), m.capacity);
            && got >= 0
            && r.capacity == m.capacity - got
            && r.x.orders[id].filled == o.filled + got
            && r.x.orders[id].Consistent()
            && (got > 0 && got == o.Remaining() ==> r.x.orders[id].status == FILLED)
            && forall i :: 0 <= i < |m.x.orders| && i != id ==> r.x.orders[i] == m.x.orders[i]
  {
  }

  /** After the first `k` orders the bar has given away the smaller of its capacity and their
      demand, and every order is still in a consistent state. */
  lemma {:induction false} CapacityLeft(
    x: ExchangeState, bar: Candle, now: int, model: BarFillModel, capacity: int, k: nat)
    requires k <= |x.orders| && AllConsistent(x.orders) && capacity >= 0
    ensures AllConsistent(MatchUpTo(x, bar, now, model, capacity, k).x.orders)
    ensures DemandBefore(x.orders, bar, model, k) >= 0
    ensures MatchUpTo(x, bar, now, model, capacity, k).capacity
         == Max(0, capacity - DemandBefore(x.orders, bar, model, k))
  {
    hide MatchOne, Demand, EffectOn;
    if k != 0 {
      CapacityLeft(x, bar, now, model, capacity, k - 1);
      MatchFrame(x, bar, now, model, capacity, k - 1);
      var m := MatchUpTo(x, bar, now, model, capacity, k - 1);
      OneAllocation(m, bar, now, model, k - 1);
      assert MatchUpTo(x, bar, now, model, capacity, k) == MatchOne(m, bar, now, model, k - 1);
    }
  }

  /** Greedy and exact: order `i` gets what it wants of what the orders before it left. */
  lemma {:induction false} LiquidityIsGreedy(
    x: ExchangeState, bar: Candle, now: int, model: BarFillModel, capacity: int, k: nat, i: nat)
    requires i < k <= |x.orders| && AllConsistent(x.orders) && capacity >= 0
    ensures MatchUpTo(x, bar, now, model, capacity, k).x.orders[i].filled - x.orders[i].filled
         == Allotted(x.orders, bar, model, capacity, i)
    decreases k
  {
    CapacityLeft(x, bar, now, model, capacity, k - 1);
    OneAllocation(MatchUpTo(x, bar, now, model, capacity, k - 1), bar, now, model, k - 1);
    if i < k - 1 {
      LiquidityIsGreedy(x, bar, now, model, capacity, k - 1, i);
    } else {
      MatchFrame(x, bar, now, model, capacity, k - 1);
    }
  }

  lemma {:induction false} DemandGrows(orders: seq<Order>, bar: Candle, model: BarFillModel, a: nat, b: nat)
    requires a < b <= |orders| && AllConsistent(orders)
    ensures DemandBefore(orders, bar, model, b)
         >= DemandBefore(orders, bar, model, a) + Demand(orders[a], bar, model)
    decreases b
  {
    if a + 1 < b {
      DemandGrows(orders, bar, model, a, b - 1);
    }
  }

  /** First come, first served: a later order trades only if every earlier order the bar could
      fill is complete, and the whole bar gives away min(capacity, demand). */
  lemma FirstComeFirstServed(x: ExchangeState, bar: Candle, now: int, model: BarFillModel, early: nat, late: nat)
    requires AllConsistent(x.orders) && model.Valid()
    requires early < late < |x.orders|
    ensures var m := Match(x, bar, now, model);
            && model.Capacity(bar) - m.capacity
               == Min(model.Capacity(bar), DemandBefore(x.orders, bar, model, |x.orders|))
            && (m.x.orders[late].filled > x.orders[late].filled && Demand(x.orders[early], bar, model) > 0
                ==> m.x.orders[early].status == FILLED)
  {
    var m := Match(x, bar, now, model);
    CapacityWithinVolume(model, bar);
    CapacityLeft(x, bar, now, model, model.Capacity(bar), |x.orders|);
    LiquidityIsGreedy(x, bar, now, model, model.Capacity(bar), |x.orders|, early);
    LiquidityIsGreedy(x, bar, now, model, model.Capacity(bar), |x.orders|, late);
    MatchFrame(x, bar, now, model, model.Capacity(bar), |x.orders|);
    DemandGrows(x.orders, bar, model, early, late);
    assert m.x.orders[early].Consistent();
  }
}
