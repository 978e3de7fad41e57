/** The vocabulary of the simulated market: bars, signals, order requests, fills and updates.
    Money is `real`; instants and spans are whole microseconds. */
module Market {
  import opened Basics

  type Instrument = string
  type RunId = string

  datatype Side = BUY | SELL {
    function Sign(): int { if BUY? then 1 else -1 }
  }

  datatype OrderType = LIMIT | STOPLOSS_LIMIT

  datatype SignalKind = ENTRY | EXIT

  datatype Timeframe = M1 | M5 | M15 | H1 | D1 {
    function Duration(): (d: int)
      ensures d > 0
    {
      match this
      case M1 => 60_000_000
      case M5 => 300_000_000
      case M15 => 900_000_000
      case H1 => 3_600_000_000
      case D1 => 86_400_000_000
    }
  }

  const IST_OFFSET := 19_800_000_000
  const DAY := 86_400_000_000

  /** The Indian calendar day an instant falls on, and the time of day there. */
  function DayOf(when: int): int { (when + IST_OFFSET) / DAY }

  function TimeOfDay(when: int): int { (when + IST_OFFSET) % DAY }

  /** A day begins at an Indian midnight, five and a half hours before the one the clock counts from, and
      the time of day is counted from there. */
  lemma DaysBeginAtMidnight(when: int)
    ensures var midnight := DayOf(when) * (24 * 3_600 * 1_000_000) - (5 * 3_600 + 30 * 60) * 1_000_000;
            when == midnight + TimeOfDay(when) && 0 <= TimeOfDay(when) < 24 * 3_600 * 1_000_000
  {
  }

  /** Sixty seconds make a minute; the longer frames are whole multiples of it, and a daily bar closes at
      the same time of the next day. */
  lemma TimeframesNest(when: int)
    ensures M1.Duration() == 60 * 1_000_000 && M5.Duration() == 5 * M1.Duration()
    ensures M15.Duration() == 15 * M1.Duration() && H1.Duration() == 60 * M1.Duration()
    ensures DayOf(when + D1.Duration()) == DayOf(when) + 1 && TimeOfDay(when + D1.Duration()) == TimeOfDay(when)
  {
  }

  datatype Candle = Candle(
    instrument: Instrument, timeframe: Timeframe, ts: int,
    open: real, high: real, low: real, close: real, volume: nat, partial: bool)
  {
    function ClosesAt(): (when: int)
      ensures ts < when
    {
      ts + timeframe.Duration()
    }

    ghost predicate Valid() {
      low <= high && low <= open <= high && low <= close <= high
    }
  }

  /** A client tag: the order flow numbers its own, the broker's square-offs are numbered apart. */
  datatype Tag = BT(n: nat) | SquareOffTag(n: nat) | Custom(text: string)

  datatype Signal = Signal(
    run: RunId, instrument: Instrument, kind: SignalKind, side: Side, orderType: OrderType,
    quantity: int, limit: real, trigger: Option<real>)
  {
    /** What `Signal.__post_init__` accepts. It does not compare the limit with the trigger. */
    predicate Valid() {
      && run != "" && instrument != "" && quantity > 0 && limit > 0.0
      && (orderType == STOPLOSS_LIMIT <==> trigger.Some?)
      && (trigger.Some? ==> trigger.value > 0.0)
    }
  }

  datatype Request = Request(
    instrument: Instrument, side: Side, orderType: OrderType, quantity: int, limit: real,
    tag: Tag, run: RunId, trigger: Option<real>)
  {
    /** What `SimOrderRequest.__post_init__` accepts; anything else cannot be built. */
    predicate Valid() {
      && instrument != "" && run != "" && quantity > 0 && limit > 0.0
      && match orderType
         case LIMIT => trigger.None?
         case STOPLOSS_LIMIT =>
           trigger.Some? && trigger.value > 0.0
           && (if side.SELL? then limit <= trigger.value else limit >= trigger.value)
    }
  }

  datatype Status = WORKING | PARTIALLY_FILLED | FILLED | CANCELLED | REJECTED {
    predicate Terminal() { FILLED? || CANCELLED? || REJECTED? }
  }

  datatype FillReason = MATCHED | FORCED_SQUARE_OFF

  datatype Fill = Fill(
    sequence: nat, orderId: nat, tag: Tag, instrument: Instrument, side: Side, quantity: int,
    price: real, ts: int, run: RunId, reason: FillReason)
  {
    function Signed(): int { side.Sign() * quantity }
  }

  datatype OrderUpdate = OrderUpdate(
    instrument: Instrument, side: Side, status: Status, quantity: int, filledQuantity: int,
    ts: int, averagePrice: Option<real>, tag: Tag, message: string)

  /** News of one order: its new state, and the trade behind it when there was one. */
  datatype Event = Event(orderId: nat, update: OrderUpdate, fill: Option<Fill>)

  /** Every exception the replay can raise, as a value. */
  datatype Fault = DuplicateTag | UnknownOrder | OrderNotOpen | NoPriceSeen | NoOpenRoundTrip
                 | TimeTravel | NegativeCharges
                 | InvalidSignal(signal: Signal)    // a signal that cannot be built
                 | InvalidRequest(request: Request) // an order request that cannot be built
}
