/** The backtest's book as a value: average-cost positions, round trips, marks, equity curve. */
module Ledger {
  import opened Basics
  import opened Market

  // ---- positions (average cost) ----------------------------------------------------------

  datatype Position = Position(net: int, average: real, gross: real, fees: real)

  const NoPosition := Position(0, 0.0, 0.0, 0.0)

  /** `PaperAccount._book`: adding averages the cost, closing books profit, a flip restarts. */
  function Booked(p: Position, side: Side, quantity: int, price: real, charges: real): Position {
    var signed := side.Sign() * quantity;
    var net := p.net + signed;
    if p.net == 0 || (p.net > 0 <==> signed > 0) then
      var held := Abs(p.net) as real * p.average;
      var average := if net == 0 then p.average else (held + quantity as real * price) / Abs(net) as real;
      Position(net, average, p.gross, p.fees + charges)
    else
      var closed := Min(quantity, Abs(p.net));
      var direction := if p.net > 0 then 1 else -1;
      var gross := p.gross + (price - p.average) * closed as real * direction as real;
      var average := if net == 0 then 0.0
                     else if net > 0 <==> p.net > 0 then p.average
                     else price;
      Position(net, average, gross, p.fees + charges)
  }

  // ---- round trips -----------------------------------------------------------------------

  datatype Direction = LONG | SHORT {
    function Sign(): int { if LONG? then 1 else -1 }
  }

  /** A round trip in progress. */
  datatype Trip = Trip(
    direction: Direction, openedAt: int, baseGross: real, baseFees: real, run: RunId,
    entryQuantity: int, entryTurnover: real, exitQuantity: int, exitTurnover: real)

  datatype ClosedTrade = ClosedTrade(
    instrument: Instrument, direction: Direction, quantity: int, openedAt: int, closedAt: int,
    entryPrice: real, exitPrice: real, gross: real, fees: real, run: RunId)

  /** Never asked with a zero quantity: `TripOk` keeps both quantities positive when it is used. */
  function Average(turnover: real, quantity: int): real {
    if quantity == 0 then 0.0 else turnover / quantity as real
  }

  function Begun(fill: Fill, direction: Direction, baseGross: real, baseFees: real): Trip {
    Trip(direction, fill.ts, baseGross, baseFees, fill.run, 0, 0.0, 0, 0.0)
  }

  /** The trip a fill belongs to: the one running, or one it begins. */
  function Running(trip: Option<Trip>, fill: Fill, before: Position): Trip {
    if trip.Some? then trip.value
    else Begun(fill, if fill.Signed() > 0 then LONG else SHORT, before.gross, before.fees)
  }

  function Entering(t: Trip, fill: Fill): Trip {
    t.(entryQuantity := t.entryQuantity + fill.quantity,
       entryTurnover := t.entryTurnover + fill.price * fill.quantity as real)
  }

  function Opened(fill: Fill, direction: Direction, baseGross: real, baseFees: real, quantity: int): Trip {
    Trip(direction, fill.ts, baseGross, baseFees, fill.run,
         quantity, fill.price * quantity as real, 0, 0.0)
  }

  function Exiting(t: Trip, fill: Fill, closing: int): Trip {
    t.(exitQuantity := t.exitQuantity + closing,
       exitTurnover := t.exitTurnover + fill.price * closing as real)
  }

  function TripClosed(t: Trip, fill: Fill, after: Position): ClosedTrade {
    ClosedTrade(fill.instrument, t.direction, t.entryQuantity, t.openedAt, fill.ts,
                Average(t.entryTurnover, t.entryQuantity), Average(t.exitTurnover, t.exitQuantity),
                after.gross - t.baseGross, after.fees - t.baseFees, t.run)
  }

  /** `_track_cycle` and `_close_cycle`: the round trip after this fill, and the one it closed. */
  function Track(trip: Option<Trip>, fill: Fill, before: Position, after: Position)
    : (Option<Trip>, Option<ClosedTrade>)
  {
    var t := Running(trip, fill, before);
    if fill.Signed() > 0 <==> t.direction.LONG? then (Some(Entering(t, fill)), None)
    else
      var closing := Min(fill.quantity, Abs(before.net));
      var t' := Exiting(t, fill, closing);
      if after.net == 0 || !(after.net > 0 <==> before.net > 0) then
        var next := if after.net == 0 then None
                    else Some(Opened(fill, if after.net > 0 then LONG else SHORT,
                                     after.gross, after.fees, Abs(after.net)));
        (next, Some(TripClosed(t', fill, after)))
      else (Some(t'), None)
  }

  /** What ties a position to its round trip: a trip is open exactly while something is held, it
      runs in the position's direction, it accounts for every held share, and the profit booked
      since it began is its signed turnover difference plus the cost still in the position. */
  ghost predicate TripOk(p: Position, trip: Option<Trip>) {
    match trip
    case None => p.net == 0 && p.average == 0.0
    case Some(t) =>
      && p.net != 0
      && (t.direction.LONG? <==> p.net > 0)
      && t.entryQuantity - t.exitQuantity == Abs(p.net)
      && t.exitQuantity >= 0
      && p.gross - t.baseGross
         == t.direction.Sign() as real * (t.exitTurnover - t.entryTurnover) + p.average * p.net as real
  }

  lemma AddingKeepsCost(p: Position, side: Side, quantity: int, price: real, charges: real)
    requires quantity > 0
    requires p.net == 0 || (p.net > 0 <==> side.BUY?)
    ensures var after := Booked(p, side, quantity, price, charges);
            && after.net != 0 && after.gross == p.gross
            && after.average * after.net as real
               == p.average * p.net as real + price * (side.Sign() * quantity) as real
  {
    var after := Booked(p, side, quantity, price, charges);
    var n := Abs(after.net) as real;
    var cost := Abs(p.net) as real * p.average + quantity as real * price;
    assert after.average == cost / n;
    assert after.average * n == cost;
    if side.BUY? {
      assert after.net as real == n && Abs(p.net) as real == p.net as real;
    } else {
      assert after.net as real == -n && Abs(p.net) as real == -(p.net as real);
    }
  }

  lemma ClosingBooksProfit(p: Position, side: Side, quantity: int, price: real, charges: real)
    requires quantity > 0 && p.net != 0 && !(p.net > 0 <==> side.BUY?)
    ensures var after := Booked(p, side, quantity, price, charges);
            var closed := Min(quantity, Abs(p.net));
            var kept := p.net + side.Sign() * closed;
            && after.gross - p.gross == (p.average - price) * (side.Sign() * closed) as real
            && (kept == 0 <==> quantity >= Abs(p.net))
            && after.average * after.net as real
               == p.average * kept as real + price * (after.net - kept) as real
  {
    var after := Booked(p, side, quantity, price, charges);
    var closed := Min(quantity, Abs(p.net));
    var kept := p.net + side.Sign() * closed;
    if quantity < Abs(p.net) {
      assert after.average == p.average && after.net == kept;
    }
  }

  /** How a fill moves one instrument from (position, trip) to (position, trip), and what it closes. */
  ghost predicate TripMoved(
    p: Position, trip: Option<Trip>, after: Position, next: Option<Trip>, closed: Option<ClosedTrade>)
  {
    match closed
    case None =>
      && next.Some?
      && next.value.baseGross == (if trip.Some? then trip.value.baseGross else p.gross)
      && next.value.baseFees == (if trip.Some? then trip.value.baseFees else p.fees)
    case Some(c) =>
      && trip.Some?
      && c.gross == after.gross - trip.value.baseGross
      && c.fees == after.fees - trip.value.baseFees
      && (next.Some? ==> next.value.baseGross == after.gross && next.value.baseFees == after.fees)
      && TradeExact(c)
  }

  /** In exact arithmetic a round trip made its exit turnover minus its entry turnover, signed. */
  ghost predicate TradeExact(c: ClosedTrade) {
    && c.quantity > 0
    && c.gross == c.direction.Sign() as real * ((c.exitPrice - c.entryPrice) * c.quantity as real)
  }

  lemma TradeIsExact(t: Trip, fill: Fill, after: Position)
    requires t.entryQuantity == t.exitQuantity > 0
    requires after.gross - t.baseGross == t.direction.Sign() as real * (t.exitTurnover - t.entryTurnover)
    ensures TradeExact(TripClosed(t, fill, after))
  {
    var q := t.entryQuantity as real;
    var c := TripClosed(t, fill, after);
    assert c.entryPrice * q == t.entryTurnover && c.exitPrice * q == t.exitTurnover;
    assert (c.exitPrice - c.entryPrice) * q == t.exitTurnover - t.entryTurnover;
  }

  lemma AddKeepsTrip(p: Position, trip: Option<Trip>, fill: Fill, charges: real)
    requires TripOk(p, trip) && fill.quantity > 0
    requires p.net == 0 || (p.net > 0 <==> fill.side.BUY?)
    ensures var after := Booked(p, fill.side, fill.quantity, fill.price, charges);
            var (next, closed) := Track(trip, fill, p, after);
            TripOk(after, next) && TripMoved(p, trip, after, next, closed)
  {
    hide TradeExact;
    AddingKeepsCost(p, fill.side, fill.quantity, fill.price, charges);
    var turnover := fill.price * fill.quantity as real;
    assert fill.price * (fill.side.Sign() * fill.quantity) as real == fill.side.Sign() as real * turnover;
  }

  predicate Closes(p: Position, side: Side) {
    p.net != 0 && !(p.net > 0 <==> side.BUY?)
  }

  /** The profit booked so far, once the closing part of a fill is counted into the trip. */
  lemma ExitArithmetic(p: Position, t: Trip, fill: Fill, charges: real)
    requires TripOk(p, Some(t)) && fill.quantity > 0 && Closes(p, fill.side)
    ensures var after := Booked(p, fill.side, fill.quantity, fill.price, charges);
            var closing := Min(fill.quantity, Abs(p.net));
            var kept := p.net + fill.side.Sign() * closing;
            var t' := Exiting(t, fill, closing);
            && after.gross - t.baseGross
               == t.direction.Sign() as real * (t'.exitTurnover - t'.entryTurnover) + p.average * kept as real
            && t'.entryQuantity - t'.exitQuantity == Abs(kept)
            && t.direction.Sign() == -fill.side.Sign()
  {
    hide Booked;
    var after := Booked(p, fill.side, fill.quantity, fill.price, charges);
    ClosingBooksProfit(p, fill.side, fill.quantity, fill.price, charges);
    var closing := Min(fill.quantity, Abs(p.net));
    var kept := p.net + fill.side.Sign() * closing;
    var turnover := fill.price * closing as real;
    var cost := p.average * (fill.side.Sign() * closing) as real;
    assert p.average * kept as real == p.average * p.net as real + cost;
    assert after.gross - p.gross == cost - fill.side.Sign() as real * turnover;
  }

  lemma ReduceKeepsTrip(p: Position, t: Trip, fill: Fill, charges: real)
    requires TripOk(p, Some(t)) && fill.quantity > 0 && Closes(p, fill.side)
    requires fill.quantity < Abs(p.net)
    ensures var after := Booked(p, fill.side, fill.quantity, fill.price, charges);
            var (next, closed) := Track(Some(t), fill, p, after);
            TripOk(after, next) && TripMoved(p, Some(t), after, next, closed)
  {
    hide Booked;
    ExitArithmetic(p, t, fill, charges);
    BookedNet(p, fill.side, fill.quantity, fill.price, charges);
  }

  lemma ExitKeepsTrip(p: Position, t: Trip, fill: Fill, charges: real)
    requires TripOk(p, Some(t)) && fill.quantity > 0 && Closes(p, fill.side)
    requires fill.quantity >= Abs(p.net)
    ensures var after := Booked(p, fill.side, fill.quantity, fill.price, charges);
            var (next, closed) := Track(Some(t), fill, p, after);
            TripOk(after, next) && TripMoved(p, Some(t), after, next, closed)
  {
    hide TradeExact, Booked;
    var after := Booked(p, fill.side, fill.quantity, fill.price, charges);
    ExitArithmetic(p, t, fill, charges);
    BookedNet(p, fill.side, fill.quantity, fill.price, charges);
    TradeIsExact(Exiting(t, fill, Abs(p.net)), fill, after);
  }

  lemma BookedNet(p: Position, side: Side, quantity: int, price: real, charges: real)
    ensures var after := Booked(p, side, quantity, price, charges);
            && after.net == p.net + side.Sign() * quantity
            && after.fees == p.fees + charges
            && (after.net == 0 && (p.net == 0 ==> p.average == 0.0) ==> quantity > 0 ==> after.average == 0.0)
            && (p.net != 0 && !(p.net > 0 <==> side.BUY?) && quantity > 0 ==>
                  after.average == if after.net == 0 then 0.0
                                   else if after.net > 0 <==> p.net > 0 then p.average else price)
  {
  }

  /** Every fill keeps the position and its round trip together. */
  lemma FillKeepsTrip(p: Position, trip: Option<Trip>, fill: Fill, charges: real)
    requires TripOk(p, trip) && fill.quantity > 0
    ensures var after := Booked(p, fill.side, fill.quantity, fill.price, charges);
            var (next, closed) := Track(trip, fill, p, after);
            TripOk(after, next) && TripMoved(p, trip, after, next, closed)
  {
    if p.net == 0 || (p.net > 0 <==> fill.side.BUY?) {
      AddKeepsTrip(p, trip, fill, charges);
    } else {
      if fill.quantity < Abs(p.net) {
        ReduceKeepsTrip(p, trip.value, fill, charges);
      } else {
        ExitKeepsTrip(p, trip.value, fill, charges);
      }
    }
  }

  // ---- the whole book --------------------------------------------------------------------

  datatype EquityPoint = EquityPoint(ts: int, equity: real, grossExposure: real, openPositions: nat)

  /** `listing` is the order in which instruments were first traded: a Python dict's key order. */
  datatype Book = Book(
    startingCash: real, positions: map<Instrument, Position>, listing: seq<Instrument>,
    trips: map<Instrument, Trip>, marks: map<Instrument, real>, trades: seq<ClosedTrade>,
    curve: seq<EquityPoint>, notional: real, fillCount: nat)
  {
    function Held(i: Instrument): Position { if i in positions then positions[i] else NoPosition }

    function TripOf(i: Instrument): Option<Trip> { if i in trips then Some(trips[i]) else None }

    function Net(i: Instrument): int { Held(i).net }
  }

  function EmptyBook(cash: real): Book { Book(cash, map[], [], map[], map[], [], [], 0.0, 0) }

  /** A fill and what it was charged. */
  datatype Booking = Booking(fill: Fill, charges: real)

  function WithTrip(trips: map<Instrument, Trip>, i: Instrument, t: Option<Trip>): map<Instrument, Trip> {
    if t.Some? then trips[i := t.value] else trips - {i}
  }

  /** `BacktestPortfolio.apply`. */
  function Apply(b: Book, fill: Fill, charges: real): Book {
    var i := fill.instrument;
    var after := Booked(b.Held(i), fill.side, fill.quantity, fill.price, charges);
    var (next, closed) := Track(b.TripOf(i), fill, b.Held(i), after);
    b.(positions := b.positions[i := after],
       listing := if i in b.positions then b.listing else b.listing + [i],
       marks := b.marks[i := fill.price],
       notional := b.notional + fill.price * fill.quantity as real,
       fillCount := b.fillCount + 1,
       trips := WithTrip(b.trips, i, next),
       trades := if closed.Some? then b.trades + [closed.value] else b.trades)
  }

  /** Signed quantity, cash taken in and charges of the fills booked in one instrument. */
  function NetOf(history: seq<Booking>, i: Instrument): int {
    if history == [] then 0
    else
      var last := history[|history| - 1].fill;
      NetOf(history[..|history| - 1], i) + if last.instrument == i then last.Signed() else 0
  }

  function CashOf(history: seq<Booking>, i: Instrument): real {
    if history == [] then 0.0
    else
      var last := history[|history| - 1].fill;
      CashOf(history[..|history| - 1], i)
      - if last.instrument == i then last.price * last.Signed() as real else 0.0
  }

  function ChargesOf(history: seq<Booking>, i: Instrument): real {
    if history == [] then 0.0
    else
      var last := history[|history| - 1];
      ChargesOf(history[..|history| - 1], i) + if last.fill.instrument == i then last.charges else 0.0
  }

  /** The price of every share traded, in any instrument. */
  function TurnoverOf(history: seq<Booking>): real {
    if history == [] then 0.0
    else
      var last := history[|history| - 1].fill;
      TurnoverOf(history[..|history| - 1]) + last.price * last.quantity as real
  }

  /** What was traded since a position was last opened: the fill that opened it, and the quantity and
      turnover from then on, of the opening fill only what it left open. */
  datatype Since = Since(opener: Option<Fill>, quantity: int, turnover: real)

  function Lately(history: seq<Booking>, i: Instrument): Since {
    if history == [] then Since(None, 0, 0.0)
    else
      var front, f := history[..|history| - 1], history[|history| - 1].fill;
      if f.instrument == i then OneMore(Lately(front, i), NetOf(front, i), f) else Lately(front, i)
  }

  /** Another fill, with so much held before it. */
  function OneMore(s: Since, before: int, f: Fill): Since {
    var after := before + f.Signed();
    if after == 0 then Since(None, 0, 0.0)
    else if before == 0 || !(before > 0 <==> after > 0) then
      Since(Some(f), Abs(after), f.price * Abs(after) as real)
    else Since(s.opener, s.quantity + f.quantity, s.turnover + f.price * f.quantity as real)
  }

  /** A round trip in progress is the run's and dates from the instant of the fill that opened it, and
      accounts for everything traded since. */
  ghost predicate TripTold(trip: Option<Trip>, s: Since) {
    match trip
    case None => s.opener.None?
    case Some(t) =>
      && s.opener.Some? && t.run == s.opener.value.run && t.openedAt == s.opener.value.ts
      && t.entryQuantity + t.exitQuantity == s.quantity && t.entryTurnover + t.exitTurnover == s.turnover
  }

  /** So is a closed one, by the fill that closed it, the last of `history`. */
  ghost predicate TradeTold(history: seq<Booking>, c: ClosedTrade)
    requires history != []
  {
    var front, f := history[..|history| - 1], history[|history| - 1].fill;
    var s, held := Lately(front, f.instrument), NetOf(front, f.instrument);
    && c.instrument == f.instrument && c.closedAt == f.ts
    && s.opener.Some? && c.run == s.opener.value.run && c.openedAt == s.opener.value.ts
    && held != 0 && (c.direction.LONG? <==> held > 0)
    && 2 * c.quantity == s.quantity + Abs(held)
    && (c.entryPrice + c.exitPrice) * c.quantity as real == s.turnover + f.price * Abs(held) as real
  }

  /** Every closed trade is exact, was closed by some fill, and tells of the trip it ended. */
  ghost predicate TradesTold(history: seq<Booking>, trades: seq<ClosedTrade>) {
    forall c :: c in trades ==> TradeExact(c) && exists k :: 0 < k <= |history| && TradeTold(history[..k], c)
  }

  /** Gross profit and fees of an instrument's closed round trips. */
  function ClosedGross(trades: seq<ClosedTrade>, i: Instrument): real {
    if trades == [] then 0.0
    else
      var last := trades[|trades| - 1];
      ClosedGross(trades[..|trades| - 1], i) + if last.instrument == i then last.gross else 0.0
  }

  function ClosedFees(trades: seq<ClosedTrade>, i: Instrument): real {
    if trades == [] then 0.0
    else
      var last := trades[|trades| - 1];
      ClosedFees(trades[..|trades| - 1], i) + if last.instrument == i then last.fees else 0.0
  }

  /** What the book says of one instrument, against the fills booked in it and the trades closed. */
  ghost predicate InstrumentOk(b: Book, history: seq<Booking>, i: Instrument) {
    var p, trip := b.Held(i), b.TripOf(i);
    && TripOk(p, trip) && TripTold(trip, Lately(history, i))
    && p.net == NetOf(history, i)
    && p.fees == ChargesOf(history, i)
    && p.gross == CashOf(history, i) + p.average * p.net as real
    && ClosedGross(b.trades, i) == (if trip.Some? then trip.value.baseGross else p.gross)
    && ClosedFees(b.trades, i) == (if trip.Some? then trip.value.baseFees else p.fees)
  }

  /** Every instrument traded is listed once, has an account and has a price. */
  ghost predicate Listed(b: Book, history: seq<Booking>) {
    && (forall i :: i in b.listing <==> i in b.positions)
    && (forall j, k :: 0 <= j < k < |b.listing| ==> b.listing[j] != b.listing[k])
    && (forall i :: i in b.positions ==> i in b.marks)
    && (forall k :: 0 <= k < |history| ==> history[k].fill.instrument in b.positions)
  }

  ghost predicate BookOk(b: Book, history: seq<Booking>) {
    && (forall i :: InstrumentOk(b, history, i)) && Listed(b, history)
    && TradesTold(history, b.trades)
    && b.fillCount == |history| && b.notional == TurnoverOf(history)
  }

  lemma EmptyBookOk(cash: real)
    ensures BookOk(EmptyBook(cash), [])
  {
  }

  /** Booked profit is the cash the fills took in plus the cost of what is still held. */
  lemma CashStep(p: Position, fill: Fill, charges: real, cash: real)
    requires fill.quantity > 0 && p.gross == cash + p.average * p.net as real
    ensures var after := Booked(p, fill.side, fill.quantity, fill.price, charges);
            after.gross == cash - fill.price * fill.Signed() as real + after.average * after.net as real
  {
    hide Booked;
    var q, c := fill.quantity, fill.price;
    BookedNet(p, fill.side, q, c, charges);
    if Closes(p, fill.side) {
      ClosingBooksProfit(p, fill.side, q, c, charges);
      var closing := fill.side.Sign() * Min(q, Abs(p.net));
      var after := Booked(p, fill.side, q, c, charges);
      assert p.average * (p.net + closing) as real == p.average * p.net as real + p.average * closing as real;
      assert (p.average - c) * closing as real == p.average * closing as real - c * closing as real;
      assert c * (after.net - (p.net + closing)) as real == c * fill.Signed() as real - c * closing as real;
    } else {
      AddingKeepsCost(p, fill.side, q, c, charges);
    }
  }

  lemma HistoryStep(history: seq<Booking>, b: Booking, i: Instrument)
    ensures var history' := history + [b];
            var mine := b.fill.instrument == i;
            && NetOf(history', i) == NetOf(history, i) + (if mine then b.fill.Signed() else 0)
            && CashOf(history', i)
               == CashOf(history, i) - (if mine then b.fill.price * b.fill.Signed() as real else 0.0)
            && ChargesOf(history', i) == ChargesOf(history, i) + (if mine then b.charges else 0.0)
            && (!mine ==> Lately(history', i) == Lately(history, i))
            && TurnoverOf(history') == TurnoverOf(history) + b.fill.price * b.fill.quantity as real
  {
    assert (history + [b])[..|history|] == history;
  }

  lemma TradesStep(trades: seq<ClosedTrade>, c: ClosedTrade, i: Instrument)
    ensures ClosedGross(trades + [c], i) == ClosedGross(trades, i) + (if c.instrument == i then c.gross else 0.0)
    ensures ClosedFees(trades + [c], i) == ClosedFees(trades, i) + (if c.instrument == i then c.fees else 0.0)
  {
    assert (trades + [c])[..|trades|] == trades;
  }

  /** One more fill: the trip it leaves open, and the one it closes, account for what was traded. */
  lemma TripToldStep(history: seq<Booking>, p: Position, trip: Option<Trip>, b: Booking)
    requires b.fill.quantity > 0 && TripOk(p, trip) && p.net == NetOf(history, b.fill.instrument)
    requires TripTold(trip, Lately(history, b.fill.instrument))
    ensures var f := b.fill;
            var after := Booked(p, f.side, f.quantity, f.price, b.charges);
            var (next, closed) := Track(trip, f, p, after);
            && TripTold(next, Lately(history + [b], f.instrument))
            && (closed.Some? ==> TradeTold(history + [b], closed.value))
  {
    hide Booked, TripOk, TripTold, TradeTold, Lately, Track, NetOf;
    var f := b.fill;
    BookedNet(p, f.side, f.quantity, f.price, b.charges);
    var after := Booked(p, f.side, f.quantity, f.price, b.charges);
    if Closes(p, f.side) && f.quantity >= Abs(p.net) {
      ClosingTold(history, p, trip, b, after);
    } else {
      StayingTold(history, p, trip, b, after);
    }
  }

  lemma StayingTold(history: seq<Booking>, p: Position, trip: Option<Trip>, b: Booking, after: Position)
    requires b.fill.quantity > 0 && TripOk(p, trip) && p.net == NetOf(history, b.fill.instrument)
    requires TripTold(trip, Lately(history, b.fill.instrument))
    requires after.net == p.net + b.fill.Signed() && !(Closes(p, b.fill.side) && b.fill.quantity >= Abs(p.net))
    ensures var (next, closed) := Track(trip, b.fill, p, after);
            TripTold(next, Lately(history + [b], b.fill.instrument)) && closed.None?
  {
    hide Lately, NetOf;
    LatelyStep(history, b);
  }

  lemma ClosingTold(history: seq<Booking>, p: Position, trip: Option<Trip>, b: Booking, after: Position)
    requires b.fill.quantity > 0 && TripOk(p, trip) && p.net == NetOf(history, b.fill.instrument)
    requires TripTold(trip, Lately(history, b.fill.instrument))
    requires after.net == p.net + b.fill.Signed() && Closes(p, b.fill.side) && b.fill.quantity >= Abs(p.net)
    ensures var (next, closed) := Track(trip, b.fill, p, after);
            && TripTold(next, Lately(history + [b], b.fill.instrument))
            && (closed.Some? ==> TradeTold(history + [b], closed.value))
  {
    hide Lately, NetOf, TradeTold;
    LatelyStep(history, b);
    ClosedTold(history, p, trip.value, b, after);
  }

  lemma LatelyStep(history: seq<Booking>, b: Booking)
    ensures var i := b.fill.instrument;
            Lately(history + [b], i) == OneMore(Lately(history, i), NetOf(history, i), b.fill)
  {
    hide OneMore, NetOf;
    assert (history + [b])[..|history|] == history;
  }

  lemma ClosedTold(history: seq<Booking>, p: Position, t: Trip, b: Booking, after: Position)
    requires b.fill.quantity > 0 && TripOk(p, Some(t)) && p.net == NetOf(history, b.fill.instrument)
    requires TripTold(Some(t), Lately(history, b.fill.instrument))
    requires p.net != 0 && b.fill.quantity >= Abs(p.net)
    ensures TradeTold(history + [b], TripClosed(Exiting(t, b.fill, Abs(p.net)), b.fill, after))
  {
    hide Average, Lately, NetOf;
    assert (history + [b])[..|history|] == history;
    var t' := Exiting(t, b.fill, Abs(p.net));
    var q := t'.entryQuantity;
    AverageIs(t'.entryTurnover, q);
    AverageIs(t'.exitTurnover, q);
    Distributes(Average(t'.entryTurnover, q), Average(t'.exitTurnover, q), q as real);
  }

  lemma Distributes(a: real, b: real, c: real)
    ensures (a + b) * c == a * c + b * c
  {
  }

  lemma AverageIs(turnover: real, quantity: int)
    requires quantity > 0
    ensures Average(turnover, quantity) * quantity as real == turnover
  {
  }

  /** The traded instrument: its account, its cash and its round trips move together. */
  lemma ApplyTraded(b: Book, history: seq<Booking>, fill: Fill, charges: real)
    requires InstrumentOk(b, history, fill.instrument) && fill.quantity > 0
    ensures InstrumentOk(Apply(b, fill, charges), history + [Booking(fill, charges)], fill.instrument)
    ensures var b' := Apply(b, fill, charges);
            b'.trades == b.trades
            || exists c :: b'.trades == b.trades + [c] && TradeExact(c)
                           && TradeTold(history + [Booking(fill, charges)], c)
  {
    hide Booked, Track, TripOk, TripTold, TradeExact, TradeTold, TripMoved, NetOf, CashOf, ChargesOf, ClosedGross,
         ClosedFees, Lately, TurnoverOf;
    var i := fill.instrument;
    var p, trip := b.Held(i), b.TripOf(i);
    var after := Booked(p, fill.side, fill.quantity, fill.price, charges);
    var (next, closed) := Track(trip, fill, p, after);
    FillKeepsTrip(p, trip, fill, charges);
    TripToldStep(history, p, trip, Booking(fill, charges));
    AccountStep(p, history, fill, charges);
    TripNames(trip, fill, p, after);
    ClosedStep(b.trades, p, trip, after, next, closed, i);
    var b' := Apply(b, fill, charges);
    assert b'.Held(i) == after && b'.TripOf(i) == next;
    if closed.Some? {
      MovedExactly(p, trip, after, next, closed);
    }
  }

  lemma MovedExactly(
    p: Position, trip: Option<Trip>, after: Position, next: Option<Trip>, closed: Option<ClosedTrade>)
    requires TripMoved(p, trip, after, next, closed) && closed.Some?
    ensures TradeExact(closed.value)
  {
  }

  /** Quantity, fees and cash of the traded instrument. */
  lemma AccountStep(p: Position, history: seq<Booking>, fill: Fill, charges: real)
    requires var i := fill.instrument;
             && p.net == NetOf(history, i) && p.fees == ChargesOf(history, i)
             && p.gross == CashOf(history, i) + p.average * p.net as real
    requires fill.quantity > 0
    ensures var i, history' := fill.instrument, history + [Booking(fill, charges)];
            var after := Booked(p, fill.side, fill.quantity, fill.price, charges);
            && after.net == NetOf(history', i) && after.fees == ChargesOf(history', i)
            && after.gross == CashOf(history', i) + after.average * after.net as real
  {
    hide Booked, NetOf, CashOf, ChargesOf, Lately, TurnoverOf;
    BookedNet(p, fill.side, fill.quantity, fill.price, charges);
    CashStep(p, fill, charges, CashOf(history, fill.instrument));
    HistoryStep(history, Booking(fill, charges), fill.instrument);
  }

  /** What the closed trades of the traded instrument add up to. */
  lemma ClosedStep(trades: seq<ClosedTrade>, p: Position, trip: Option<Trip>, after: Position, next: Option<Trip>,
                   closed: Option<ClosedTrade>, i: Instrument)
    requires TripMoved(p, trip, after, next, closed) && TripOk(p, trip) && TripOk(after, next)
    requires ClosedGross(trades, i) == if trip.Some? then trip.value.baseGross else p.gross
    requires ClosedFees(trades, i) == if trip.Some? then trip.value.baseFees else p.fees
    requires closed.Some? ==> closed.value.instrument == i
    ensures var trades' := if closed.Some? then trades + [closed.value] else trades;
            && ClosedGross(trades', i) == (if next.Some? then next.value.baseGross else after.gross)
            && ClosedFees(trades', i) == (if next.Some? then next.value.baseFees else after.fees)
  {
    hide ClosedGross, ClosedFees, TradeExact, TripOk;
    FlatTrip(p, trip);
    FlatTrip(after, next);
    if closed.Some? {
      TradesStep(trades, closed.value, i);
    }
  }

  lemma FlatTrip(p: Position, trip: Option<Trip>)
    requires TripOk(p, trip)
    ensures trip.None? <==> p.net == 0
  {
  }

  lemma TripNames(trip: Option<Trip>, fill: Fill, before: Position, after: Position)
    ensures var closed := Track(trip, fill, before, after).1;
            closed.Some? ==> closed.value.instrument == fill.instrument
  {
  }

  lemma ApplyOthers(b: Book, history: seq<Booking>, fill: Fill, charges: real, i: Instrument)
    requires InstrumentOk(b, history, i) && i != fill.instrument
    ensures InstrumentOk(Apply(b, fill, charges), history + [Booking(fill, charges)], i)
  {
    hide Booked, Track, TripOk, TripTold, NetOf, CashOf, ChargesOf, ClosedGross, ClosedFees, Lately, TurnoverOf;
    var b' := Apply(b, fill, charges);
    var before := b.Held(fill.instrument);
    var after := Booked(before, fill.side, fill.quantity, fill.price, charges);
    var closed := Track(b.TripOf(fill.instrument), fill, before, after).1;
    HistoryStep(history, Booking(fill, charges), i);
    TripNames(b.TripOf(fill.instrument), fill, before, after);
    if closed.Some? {
      TradesStep(b.trades, closed.value, i);
    }
    assert b'.Held(i) == b.Held(i) && b'.TripOf(i) == b.TripOf(i);
  }

  /** After any fills: the account is the fills' signed sum, its profit is the cash they took in
      plus the cost still held, and the closed round trips plus the open one add up to it. */
  lemma ApplyKeepsBook(b: Book, history: seq<Booking>, fill: Fill, charges: real)
    requires BookOk(b, history) && fill.quantity > 0
    ensures BookOk(Apply(b, fill, charges), history + [Booking(fill, charges)])
  {
    hide InstrumentOk, TradesTold, TradeExact, TradeTold, Listed, Booked, Track, TurnoverOf;
    HistoryStep(history, Booking(fill, charges), fill.instrument);
    ListedOn(b, history, fill, charges);
    ApplyTraded(b, history, fill, charges);
    MoreTrades(history, Booking(fill, charges), b.trades, Apply(b, fill, charges).trades);
    forall i ensures InstrumentOk(Apply(b, fill, charges), history + [Booking(fill, charges)], i) {
      if i != fill.instrument {
        ApplyOthers(b, history, fill, charges, i);
      }
    }
  }

  lemma ListedOn(b: Book, history: seq<Booking>, fill: Fill, charges: real)
    requires Listed(b, history)
    ensures Listed(Apply(b, fill, charges), history + [Booking(fill, charges)])
  {
    hide Booked, Track;
  }

  lemma MoreTrades(history: seq<Booking>, booking: Booking, trades: seq<ClosedTrade>, trades': seq<ClosedTrade>)
    requires TradesTold(history, trades)
    requires trades' == trades
             || exists c :: trades' == trades + [c] && TradeExact(c) && TradeTold(history + [booking], c)
    ensures TradesTold(history + [booking], trades')
  {
    hide TradeExact, TradeTold;
    var history' := history + [booking];
    assert history'[..|history'|] == history';
    forall c | c in trades' ensures TradeExact(c) && exists k :: 0 < k <= |history'| && TradeTold(history'[..k], c) {
      if c in trades {
        var k :| 0 < k <= |history| && TradeTold(history[..k], c);
        assert history'[..k] == history[..k];
      }
    }
  }

  // ---- valuation -------------------------------------------------------------------------

  function MarkOf(b: Book, i: Instrument): real {
    if i in b.marks then b.marks[i] else b.Held(i).average
  }

  function Paper(b: Book, i: Instrument): real {
    (MarkOf(b, i) - b.Held(i).average) * b.Held(i).net as real
  }

  function Exposure(b: Book, i: Instrument): real { MarkOf(b, i) * Abs(b.Net(i)) as real }

  function Realised(b: Book, names: seq<Instrument>): real {
    if names == [] then 0.0
    else
      var i := names[|names| - 1];
      Realised(b, names[..|names| - 1]) + (b.Held(i).gross - b.Held(i).fees)
  }

  function Unrealised(b: Book, names: seq<Instrument>): real {
    if names == [] then 0.0
    else
      var i := names[|names| - 1];
      Unrealised(b, names[..|names| - 1]) + if b.Net(i) != 0 then Paper(b, i) else 0.0
  }

  function GrossExposure(b: Book, names: seq<Instrument>): real {
    if names == [] then 0.0
    else
      var i := names[|names| - 1];
      GrossExposure(b, names[..|names| - 1]) + if b.Net(i) != 0 then Exposure(b, i) else 0.0
  }

  /** The instruments with something held, in listing order. */
  function Open(b: Book, names: seq<Instrument>): (r: seq<Instrument>)
    ensures |r| <= |names|
  {
    if names == [] then []
    else
      var i := names[|names| - 1];
      Open(b, names[..|names| - 1]) + if b.Net(i) != 0 then [i] else []
  }

  lemma {:induction false} OpenExactly(b: Book, names: seq<Instrument>)
    requires forall j, k :: 0 <= j < k < |names| ==> names[j] != names[k]
    ensures forall i :: i in Open(b, names) <==> i in names && b.Net(i) != 0
    ensures forall j, k :: 0 <= j < k < |Open(b, names)| ==> Open(b, names)[j] != Open(b, names)[k]
  {
    if names != [] {
      var n := |names| - 1;
      OpenExactly(b, names[..n]);
      assert names == names[..n] + [names[n]];
      var front := Open(b, names[..n]);
      assert forall j :: 0 <= j < |front| ==> front[j] in front;
    }
  }

  function Equity(b: Book): real {
    b.startingCash + Realised(b, b.listing) + Unrealised(b, b.listing)
  }

  function RecordPoint(b: Book, ts: int): Book {
    b.(curve := b.curve + [EquityPoint(ts, Equity(b), GrossExposure(b, b.listing), |Open(b, b.listing)|)])
  }

  /** What the account could be liquidated for at the marks: cash flows, charges and holdings. */
  function Liquidation(b: Book, history: seq<Booking>, names: seq<Instrument>): real {
    if names == [] then 0.0
    else
      var i := names[|names| - 1];
      Liquidation(b, history, names[..|names| - 1])
      + (CashOf(history, i) - ChargesOf(history, i) + MarkOf(b, i) * b.Net(i) as real)
  }

  lemma {:induction false} ValuationAdds(b: Book, history: seq<Booking>, names: seq<Instrument>)
    requires BookOk(b, history)
    ensures Realised(b, names) + Unrealised(b, names) == Liquidation(b, history, names)
  {
    hide BookOk, CashOf, ChargesOf, MarkOf, Paper;
    if names != [] {
      ValuationAdds(b, history, names[..|names| - 1]);
      OneValue(b, history, names[|names| - 1]);
    }
  }

  lemma OneValue(b: Book, history: seq<Booking>, i: Instrument)
    requires BookOk(b, history)
    ensures b.Held(i).gross - b.Held(i).fees + (if b.Net(i) != 0 then Paper(b, i) else 0.0)
         == CashOf(history, i) - ChargesOf(history, i) + MarkOf(b, i) * b.Net(i) as real
  {
    hide TripOk, TripTold, TradesTold, TradeExact, NetOf, CashOf, ChargesOf, ClosedGross, ClosedFees, Lately,
         TurnoverOf, MarkOf, Listed;
    assert InstrumentOk(b, history, i);
    var mark, average, net := MarkOf(b, i), b.Held(i).average, b.Net(i) as real;
    assert (mark - average) * net == mark * net - average * net;
  }

  /** The average-cost P&L agrees with plain cash accounting: equity is the starting cash, plus what
      every fill paid in or out, minus every charge, plus the holdings at their marks. */
  lemma EquityIsCashPlusHoldings(b: Book, history: seq<Booking>)
    requires BookOk(b, history)
    ensures Equity(b) == b.startingCash + Liquidation(b, history, b.listing)
  {
    ValuationAdds(b, history, b.listing);
  }

  // ---- what the book is worth, told by the fills and the prices alone --------------------

  function Value(price: real, quantity: int): real { price * quantity as real }

  lemma ValuesAdd(a: real, b: real, m: int, n: int)
    ensures Value(a + b, m) == Value(a, m) + Value(b, m) && Value(a, m + n) == Value(a, m) + Value(a, n)
    ensures Value(a, 0) == 0.0
  {
    assert (a + b) * m as real == a * m as real + b * m as real;
    assert (m + n) as real == m as real + n as real;
    assert a * (m as real + n as real) == a * m as real + a * n as real;
  }

  /** What the fills have come to: every share bought or sold, at today's price against its own, less what
      was charged. */
  function Worth(history: seq<Booking>, price: Instrument -> real): real {
    if history == [] then 0.0
    else
      var last := history[|history| - 1];
      Worth(history[..|history| - 1], price)
      + (Value(price(last.fill.instrument) - last.fill.price, last.fill.Signed()) - last.charges)
  }

  /** The same, instrument by instrument. */
  function WorthOf(history: seq<Booking>, price: Instrument -> real, i: Instrument): real {
    CashOf(history, i) - ChargesOf(history, i) + price(i) * NetOf(history, i) as real
  }

  function WorthByName(history: seq<Booking>, price: Instrument -> real, names: seq<Instrument>): real {
    if names == [] then 0.0
    else WorthByName(history, price, names[..|names| - 1]) + WorthOf(history, price, names[|names| - 1])
  }

  lemma WorthOfStep(history: seq<Booking>, b: Booking, price: Instrument -> real, i: Instrument)
    ensures WorthOf(history + [b], price, i)
         == WorthOf(history, price, i)
            + if b.fill.instrument == i then (price(i) - b.fill.price) * b.fill.Signed() as real - b.charges else 0.0
  {
    hide NetOf, CashOf, ChargesOf, Lately, TurnoverOf;
    HistoryStep(history, b, i);
    var n, q := NetOf(history, i) as real, b.fill.Signed() as real;
    if b.fill.instrument == i {
      assert price(i) * (n + q) == price(i) * n + price(i) * q;
      assert (price(i) - b.fill.price) * q == price(i) * q - b.fill.price * q;
    }
  }

  lemma {:induction false} WorthByNameStep(
    history: seq<Booking>, b: Booking, price: Instrument -> real, names: seq<Instrument>)
    requires forall j, k :: 0 <= j < k < |names| ==> names[j] != names[k]
    ensures WorthByName(history + [b], price, names)
         == WorthByName(history, price, names)
            + if b.fill.instrument in names
              then (price(b.fill.instrument) - b.fill.price) * b.fill.Signed() as real - b.charges else 0.0
  {
    hide WorthOf;
    if names != [] {
      var n := |names| - 1;
      WorthByNameStep(history, b, price, names[..n]);
      WorthOfStep(history, b, price, names[n]);
      assert names == names[..n] + [names[n]];
    }
  }

  lemma {:induction false} NothingByName(price: Instrument -> real, names: seq<Instrument>)
    ensures WorthByName([], price, names) == 0.0
  {
    if names != [] {
      NothingByName(price, names[..|names| - 1]);
      assert price(names[|names| - 1]) * 0.0 == 0.0;
    }
  }

  /** Over all the instruments traded, the two come to the same. */
  lemma {:induction false} WorthEitherWay(history: seq<Booking>, price: Instrument -> real, names: seq<Instrument>)
    requires forall j, k :: 0 <= j < k < |names| ==> names[j] != names[k]
    requires forall k :: 0 <= k < |history| ==> history[k].fill.instrument in names
    ensures Worth(history, price) == WorthByName(history, price, names)
  {
    hide WorthByName;
    if history == [] {
      NothingByName(price, names);
    } else {
      var n := |history| - 1;
      WorthEitherWay(history[..n], price, names);
      WorthByNameStep(history[..n], history[n], price, names);
      assert history == history[..n] + [history[n]];
    }
  }

  /** These are the prices of what is held. */
  ghost predicate MarkedAt(b: Book, price: Instrument -> real) {
    forall i :: b.Net(i) != 0 ==> i in b.marks && b.marks[i] == price(i)
  }

  lemma {:induction false} LiquidationByName(
    b: Book, history: seq<Booking>, price: Instrument -> real, names: seq<Instrument>)
    requires BookOk(b, history) && MarkedAt(b, price)
    ensures Liquidation(b, history, names) == WorthByName(history, price, names)
  {
    hide TripOk, TripTold, TradesTold, TradeExact, CashOf, ChargesOf, ClosedGross, ClosedFees, Lately, TurnoverOf,
         NetOf;
    if names != [] {
      var i := names[|names| - 1];
      LiquidationByName(b, history, price, names[..|names| - 1]);
      assert InstrumentOk(b, history, i);
      if b.Net(i) == 0 {
        assert MarkOf(b, i) * 0.0 == 0.0 == price(i) * 0.0;
      }
    }
  }

  /** Equity is the starting cash and what the fills have come to, at the prices of what is held; the
      average cost, the round trips and the prices of what is not held do not enter. */
  lemma EquityFromFills(b: Book, history: seq<Booking>, price: Instrument -> real)
    requires BookOk(b, history) && MarkedAt(b, price)
    ensures Equity(b) == b.startingCash + Worth(history, price)
  {
    hide Equity, Worth, WorthByName, Liquidation, InstrumentOk, TradesTold;
    EquityIsCashPlusHoldings(b, history);
    LiquidationByName(b, history, price, b.listing);
    WorthEitherWay(history, price, b.listing);
  }

  /** What is held, at these prices, whichever way it is held. */
  function ExposureOf(history: seq<Booking>, price: Instrument -> real, held: seq<Instrument>): real {
    if held == [] then 0.0
    else
      var i := held[|held| - 1];
      ExposureOf(history, price, held[..|held| - 1]) + price(i) * Abs(NetOf(history, i)) as real
  }

  lemma {:induction false} ExposureFromFills(
    b: Book, history: seq<Booking>, price: Instrument -> real, names: seq<Instrument>)
    requires BookOk(b, history) && MarkedAt(b, price)
    ensures GrossExposure(b, names) == ExposureOf(history, price, Open(b, names))
  {
    hide TripOk, TripTold, TradesTold, TradeExact, CashOf, ChargesOf, ClosedGross, ClosedFees, Lately, TurnoverOf,
         NetOf;
    if names != [] {
      var n, i := |names| - 1, names[|names| - 1];
      ExposureFromFills(b, history, price, names[..n]);
      assert InstrumentOk(b, history, i);
      var front := Open(b, names[..n]);
      assert (front + [i])[..|front|] == front;
      assert b.Net(i) == 0 ==> front + [] == front;
    }
  }

  /** A point of the equity curve, told by the fills so far and the prices of what they left held. */
  ghost predicate PointTold(cash: real, history: seq<Booking>, price: Instrument -> real, point: EquityPoint) {
    && point.equity == cash + Worth(history, price)
    && exists held: seq<Instrument> ::
         && (forall i :: i in held <==> NetOf(history, i) != 0)
         && (forall j, k :: 0 <= j < k < |held| ==> held[j] != held[k])
         && point.grossExposure == ExposureOf(history, price, held) && point.openPositions == |held|
  }

  lemma RecordedIsTold(b: Book, history: seq<Booking>, price: Instrument -> real, ts: int)
    requires BookOk(b, history) && MarkedAt(b, price)
    ensures var b' := RecordPoint(b, ts);
            && b' == b.(curve := b.curve + [b'.curve[|b.curve|]]) && b'.curve[|b.curve|].ts == ts
            && PointTold(b.startingCash, history, price, b'.curve[|b.curve|])
  {
    hide TripOk, TripTold, TradesTold, TradeExact, CashOf, ChargesOf, ClosedGross, ClosedFees, Lately, TurnoverOf,
         NetOf, Equity, GrossExposure, Open, Worth, ExposureOf;
    EquityFromFills(b, history, price);
    ExposureFromFills(b, history, price, b.listing);
    OpenExactly(b, b.listing);
    var held := Open(b, b.listing);
    forall i ensures i in held <==> NetOf(history, i) != 0 {
      assert InstrumentOk(b, history, i);
    }
  }

  lemma {:induction false} WorthMoves(
    history: seq<Booking>, price: Instrument -> real, other: Instrument -> real, i: Instrument)
    requires forall j :: j != i ==> other(j) == price(j)
    ensures Worth(history, other) - Worth(history, price) == Value(other(i) - price(i), NetOf(history, i))
  {
    hide Value;
    var change := other(i) - price(i);
    if history != [] {
      var front, last := history[..|history| - 1], history[|history| - 1].fill;
      WorthMoves(front, price, other, i);
      if last.instrument == i {
        ValuesAdd(price(i) - last.price, change, last.Signed(), 0);
        ValuesAdd(change, 0.0, NetOf(front, i), last.Signed());
        assert price(i) - last.price + change == other(i) - last.price;
      }
    } else {
      ValuesAdd(change, 0.0, 0, 0);
    }
  }

  /** A new price moves the equity by its change times what is held, and nothing else. */
  lemma MarkMovesEquity(b: Book, history: seq<Booking>, i: Instrument, p: real)
    requires BookOk(b, history)
    ensures var b' := b.(marks := b.marks[i := p]);
            if b.Net(i) == 0 then Equity(b') == Equity(b)
            else i in b.marks && Equity(b') == Equity(b) + (p - b.marks[i]) * b.Net(i) as real
  {
    hide BookOk, NetOf, Equity, Worth;
    var b' := b.(marks := b.marks[i := p]);
    var price: Instrument -> real := j => if j in b.marks then b.marks[j] else p;
    var other: Instrument -> real := j => if j in b'.marks then b'.marks[j] else p;
    forall j ensures b'.Net(j) == b.Net(j) == NetOf(history, j) && (b.Net(j) != 0 ==> j in b.marks) {
      HeldIsMarked(b, history, j);
    }
    RepricedOk(b, history, i, p);
    EquityFromFills(b, history, price);
    EquityFromFills(b', history, other);
    WorthMoves(history, price, other, i);
    var change, held := other(i) - price(i), b.Net(i) as real;
    assert Equity(b') - Equity(b) == change * held;
    assert change * 0.0 == 0.0;
  }

  // ---- any life of a book ----------------------------------------------------------------

  /** What a book is told: a fill and its charges, or a price. */
  datatype Touch = FillSeen(fill: Fill, charges: real) | PriceSeen(instrument: Instrument, price: real)

  function Played(b: Book, touches: seq<Touch>): Book {
    if touches == [] then b
    else
      var before := Played(b, touches[..|touches| - 1]);
      match touches[|touches| - 1]
      case FillSeen(fill, charges) => Apply(before, fill, charges)
      case PriceSeen(i, price) => before.(marks := before.marks[i := price])
  }

  function FillsSeen(touches: seq<Touch>): seq<Booking> {
    if touches == [] then []
    else
      FillsSeen(touches[..|touches| - 1])
      + match touches[|touches| - 1]
        case FillSeen(fill, charges) => [Booking(fill, charges)]
        case PriceSeen(_, _) => []
  }

  /** The price an instrument was last seen at, in a fill or on its own. */
  function LastSeen(touches: seq<Touch>, i: Instrument): Option<real> {
    if touches == [] then None
    else
      match touches[|touches| - 1]
      case FillSeen(fill, _) =>
        if fill.instrument == i then Some(fill.price) else LastSeen(touches[..|touches| - 1], i)
      case PriceSeen(j, price) =>
        if j == i then Some(price) else LastSeen(touches[..|touches| - 1], i)
  }

  lemma RepricedOk(b: Book, history: seq<Booking>, i: Instrument, p: real)
    requires BookOk(b, history)
    ensures BookOk(b.(marks := b.marks[i := p]), history)
  {
    hide TripOk, TripTold, TradesTold, TradeExact, CashOf, ChargesOf, ClosedGross, ClosedFees, Lately, TurnoverOf,
         NetOf;
    var b' := b.(marks := b.marks[i := p]);
    forall j ensures InstrumentOk(b', history, j) {
      assert InstrumentOk(b, history, j);
      assert b'.Held(j) == b.Held(j) && b'.TripOf(j) == b.TripOf(j);
    }
  }

  lemma {:induction false} PlayedOk(cash: real, touches: seq<Touch>)
    requires forall k :: 0 <= k < |touches| && touches[k].FillSeen? ==> touches[k].fill.quantity > 0
    ensures var b := Played(EmptyBook(cash), touches);
            && BookOk(b, FillsSeen(touches)) && b.startingCash == cash
            && (forall i :: i in b.marks <==> LastSeen(touches, i).Some?)
            && (forall i :: i in b.marks ==> b.marks[i] == LastSeen(touches, i).value)
    decreases touches
  {
    hide BookOk, Booked, Track;
    if touches == [] {
      EmptyBookOk(cash);
    } else {
      var n := |touches| - 1;
      PlayedOk(cash, touches[..n]);
      var before := Played(EmptyBook(cash), touches[..n]);
      match touches[n]
      case FillSeen(fill, charges) => ApplyKeepsBook(before, FillsSeen(touches[..n]), fill, charges);
      case PriceSeen(i, price) =>
        RepricedOk(before, FillsSeen(touches[..n]), i, price);
        assert FillsSeen(touches[..n]) + [] == FillsSeen(touches[..n]);
    }
  }

  /** Whatever fills and prices a book has seen, in any order: its last prices are the last seen, and its equity
      is its starting cash and what the fills have come to at the last prices seen. */
  lemma BookIsWorth(cash: real, touches: seq<Touch>, price: Instrument -> real)
    requires forall k :: 0 <= k < |touches| && touches[k].FillSeen? ==> touches[k].fill.quantity > 0
    requires forall i :: LastSeen(touches, i).Some? ==> price(i) == LastSeen(touches, i).value
    ensures var b := Played(EmptyBook(cash), touches);
            && (forall i :: LastSeen(touches, i) == if i in b.marks then Some(b.marks[i]) else None)
            && Equity(b) == cash + Worth(FillsSeen(touches), price)
            && (forall i :: b.Net(i) == NetOf(FillsSeen(touches), i))
            && GrossExposure(b, b.listing) == ExposureOf(FillsSeen(touches), price, Open(b, b.listing))
  {
    hide InstrumentOk, TradesTold, Equity, GrossExposure, Open, Worth, ExposureOf, NetOf, TurnoverOf, Played, LastSeen,
         FillsSeen;
    PlayedOk(cash, touches);
    var b, history := Played(EmptyBook(cash), touches), FillsSeen(touches);
    forall i ensures b.Net(i) == NetOf(history, i) && (b.Net(i) != 0 ==> i in b.marks) {
      HeldIsMarked(b, history, i);
    }
    EquityFromFills(b, history, price);
    ExposureFromFills(b, history, price, b.listing);
  }

  lemma HeldIsMarked(b: Book, history: seq<Booking>, i: Instrument)
    requires BookOk(b, history)
    ensures b.Net(i) == NetOf(history, i) && (b.Net(i) != 0 ==> i in b.marks)
  {
    hide TripOk, TripTold, TradesTold, TradeExact, CashOf, ChargesOf, ClosedGross, ClosedFees, Lately, TurnoverOf,
         NetOf;
    assert InstrumentOk(b, history, i);
  }

  /** Closed round trips and the open one add up to the account, per instrument; a flat instrument's
      closed trades are its whole P&L. */
  lemma RoundTripsTelescope(b: Book, history: seq<Booking>, i: Instrument)
    requires BookOk(b, history)
    ensures b.TripOf(i).Some? <==> b.Net(i) != 0
    ensures b.TripOf(i).Some? ==>
              var t := b.TripOf(i).value;
              && (t.direction.LONG? <==> b.Net(i) > 0)
              && t.entryQuantity - t.exitQuantity == Abs(b.Net(i))
              && b.Held(i).gross == ClosedGross(b.trades, i)
                   + t.direction.Sign() as real * (t.exitTurnover - t.entryTurnover)
                   + b.Held(i).average * b.Net(i) as real
              && ClosedFees(b.trades, i) == t.baseFees
    ensures b.Net(i) == 0 ==>
              && ClosedGross(b.trades, i) == b.Held(i).gross == CashOf(history, i)
              && ClosedFees(b.trades, i) == ChargesOf(history, i)
  {
    hide NetOf, CashOf, ChargesOf, ClosedGross, ClosedFees;
    assert InstrumentOk(b, history, i);
    if b.Net(i) == 0 {
      assert b.Held(i).average * 0.0 == 0.0;
    }
  }
}
