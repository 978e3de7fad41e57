/** How a run prices its orders: the limit gives way to the market by some basis points and is cut to
    the tick, so it can come out as no price at all. */
module Pricing {
  import opened Market
  import opened Simulation
  import opened Basics

  function Ticks(price: real, tick: real): int
    requires tick > 0.0
  {
    (price / tick).Floor
  }

  function FloorTo(price: real, tick: real): real
    requires tick > 0.0
  {
    Ticks(price, tick) as real * tick
  }

  function CeilTo(price: real, tick: real): real
    requires tick > 0.0
  {
    -FloorTo(-price, tick)
  }

  /** The first whole number of ticks that is not below a price, or not above it. */
  ghost predicate TickAbove(p: real, price: real, tick: real)
    requires tick > 0.0
  {
    price <= p < price + tick && exists n: int :: WholeTicks(p, tick, n)
  }

  ghost predicate TickBelow(p: real, price: real, tick: real)
    requires tick > 0.0
  {
    price - tick < p <= price && exists n: int :: WholeTicks(p, tick, n)
  }

  ghost predicate WholeTicks(p: real, tick: real, n: int) { p == n as real * tick }

  /** `MarketableLimit`: a buffer in hundredths of a percent, and the instrument's tick. */
  datatype Marketable = Marketable(buffer: real, tick: real) {
    predicate Valid() { buffer >= 0.0 && tick > 0.0 }

    function ToTick(side: Side, price: real): real
      requires Valid()
    {
      if side.BUY? then CeilTo(price, tick) else FloorTo(price, tick)
    }

    function Aim(s: Signal): real {
      if s.orderType.STOPLOSS_LIMIT? then s.limit
      else if s.side.BUY? then s.limit * (1.0 + buffer / 10_000.0)
      else s.limit * (1.0 - buffer / 10_000.0)
    }

    function PricesOf(s: Signal): Prices
      requires Valid()
    {
      Prices(ToTick(s.side, Aim(s)), if s.trigger.Some? then Some(ToTick(s.side, s.trigger.value)) else None)
    }

    /** What an order is priced at: a limit order so much through the market, a stop at its own limit and
        trigger; all of them cut to the tick, a buy upwards, a sell downwards. */
    lemma PricesAre(s: Signal)
      requires Valid()
      ensures var p := PricesOf(s);
              match (s.orderType, s.side)
              case (LIMIT, BUY) => TickAbove(p.limit, s.limit * (1.0 + buffer / 10_000.0), tick)
              case (LIMIT, SELL) => TickBelow(p.limit, s.limit * (1.0 - buffer / 10_000.0), tick)
              case (STOPLOSS_LIMIT, BUY) => TickAbove(p.limit, s.limit, tick)
              case (STOPLOSS_LIMIT, SELL) => TickBelow(p.limit, s.limit, tick)
      ensures var p := PricesOf(s);
              && (s.trigger.Some? <==> p.trigger.Some?)
              && (s.trigger.Some? ==>
                    if s.side.BUY? then TickAbove(p.trigger.value, s.trigger.value, tick)
                    else TickBelow(p.trigger.value, s.trigger.value, tick))
    {
      hide TickAbove, TickBelow, FloorTo, CeilTo;
      CutToTick(Aim(s), tick);
      if s.trigger.Some? {
        CutToTick(s.trigger.value, tick);
      }
    }

    /** Exactly which signals make an order under this pricing: a limit buy always does; a limit sell
        if a tick is left of its price below the market; a stop buy if its rounded limit reaches its
        rounded trigger; a stop sell if its limit is worth a tick and does not pass its trigger. */
    lemma BuildableIff(cfg: Config, s: Signal, n: nat)
      requires Valid() && s.Valid() && cfg.pricing(s) == PricesOf(s)
      ensures RequestFor(cfg, s, n).Valid() <==>
                match (s.orderType, s.side)
                case (LIMIT, BUY) => true
                case (LIMIT, SELL) => s.limit * (1.0 - buffer / 10_000.0) >= tick
                case (STOPLOSS_LIMIT, BUY) => CeilTo(s.trigger.value, tick) <= CeilTo(s.limit, tick)
                case (STOPLOSS_LIMIT, SELL) =>
                  s.limit >= tick && FloorTo(s.limit, tick) <= FloorTo(s.trigger.value, tick)
    {
      if s.orderType.LIMIT? && s.side.BUY? {
        var more := buffer / 10_000.0;
        var aim := s.limit * (1.0 + more);
        assert aim == s.limit + s.limit * more;
        Rounding(aim, tick);
      }
      Rounding(Aim(s), tick);
      if s.trigger.Some? {
        Rounding(s.trigger.value, tick);
      }
    }
  }

  lemma CutToTick(price: real, tick: real)
    requires tick > 0.0
    ensures TickAbove(CeilTo(price, tick), price, tick) && TickBelow(FloorTo(price, tick), price, tick)
  {
    FloorIsBelow(price, tick);
    FloorIsBelow(-price, tick);
    var n := -Ticks(-price, tick);
    assert WholeTicks(CeilTo(price, tick), tick, n);
  }

  lemma FloorIsBelow(price: real, tick: real)
    requires tick > 0.0
    ensures TickBelow(FloorTo(price, tick), price, tick)
  {
    var z := price / tick;
    var n, p := Ticks(price, tick), FloorTo(price, tick);
    assert z * tick == price;
    assert p == n as real * tick;
    Scales(n as real, z, tick);
    assert p <= price;
    BelowNext(z, n as real, tick, price, p);
    assert WholeTicks(p, tick, n);
  }

  lemma BelowNext(z: real, n: real, tick: real, price: real, p: real)
    requires z < n + 1.0 && tick > 0.0 && price == z * tick && p == n * tick
    ensures price < p + tick
  {
    var gap := n + 1.0 - z;
    assert gap * tick > 0.0;
    assert (z + gap) * tick == z * tick + gap * tick;
    assert (n + 1.0) * tick == n * tick + tick;
  }

  /** Rounding up to the tick keeps a positive price positive; rounding down does while a tick is left. */
  lemma Rounding(price: real, tick: real)
    requires tick > 0.0
    ensures price > 0.0 ==> CeilTo(price, tick) > 0.0
    ensures FloorTo(price, tick) > 0.0 <==> price >= tick
  {
    FloorIsPositive(price, tick);
    if price > 0.0 {
      CeilIsPositive(price, tick);
    }
  }

  lemma FloorIsPositive(price: real, tick: real)
    requires tick > 0.0
    ensures FloorTo(price, tick) > 0.0 <==> price >= tick
  {
    var z := price / tick;
    assert z * tick == price;
    var q := z.Floor;
    if z < 1.0 {
      ScalesLess(z, 1.0, tick);
      Scales(q as real, 0.0, tick);
    } else {
      Scales(1.0, z, tick);
      Scales(1.0, q as real, tick);
    }
  }

  lemma CeilIsPositive(price: real, tick: real)
    requires tick > 0.0 && price > 0.0
    ensures CeilTo(price, tick) > 0.0
  {
    var z := -price / tick;
    assert z * tick == -price;
    var p := z.Floor;
    assert z < 0.0 by {
      if z >= 0.0 {
        Scales(0.0, z, tick);
      }
    }
    Scales(p as real, -1.0, tick);
  }

  lemma ScalesLess(a: real, b: real, tick: real)
    requires a < b && tick > 0.0
    ensures a * tick < b * tick
  {
    assert (b - a) * tick > 0.0;
  }

  lemma Scales(a: real, b: real, tick: real)
    requires a <= b && tick > 0.0
    ensures a * tick <= b * tick
  {
    assert (b - a) * tick >= 0.0;
  }
}
