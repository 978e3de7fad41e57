/** The policies that decide whether a bar trades a limit order, how dear, and how much of it. */
module FillModel {
  import opened Basics
  import opened Market

  datatype Crossing = ThroughBar | TouchBar

  datatype Pricing = AtLimitPrice | GapAwareSlippage(bps: real)

  function MinReal(a: real, b: real): real { if a <= b then a else b }

  function MaxReal(a: real, b: real): real { if a >= b then a else b }

  /** `quantize(0.01, ROUND_DOWN)`: towards zero, as Python's decimal module does. */
  function PaisaDown(x: real): real {
    if x >= 0.0 then (x * 100.0).Floor as real / 100.0 else -((-x * 100.0).Floor as real / 100.0)
  }

  /** `quantize(0.01, ROUND_UP)`: away from zero. */
  function PaisaUp(x: real): real {
    if x >= 0.0 then -((-x * 100.0).Floor as real / 100.0) else (x * 100.0).Floor as real / 100.0
  }

  /** A price moved by so many basis points. */
  function Raised(price: real, bps: real): real { price * (1.0 + bps / 10_000.0) }

  function Lowered(price: real, bps: real): real { price * (1.0 - bps / 10_000.0) }

  /** The least whole paisa that is not below `x`, and the greatest that is not above it. */
  ghost predicate PaisaAbove(p: real, x: real) { x <= p < x + 0.01 && (p * 100.0).Floor as real == p * 100.0 }

  ghost predicate PaisaBelow(p: real, x: real) { x - 0.01 < p <= x && (p * 100.0).Floor as real == p * 100.0 }

  /** No worse than the limit, for the side that trades. */
  predicate WithinLimit(side: Side, limit: real, price: real) {
    if side.BUY? then price <= limit else price >= limit
  }

  datatype BarFillModel = BarFillModel(crossing: Crossing, pricing: Pricing, fraction: real) {

    /** What the policies' constructors accept. */
    ghost predicate Valid() {
      0.0 < fraction <= 1.0 && (pricing.GapAwareSlippage? ==> pricing.bps >= 0.0)
    }

    function Capacity(bar: Candle): int {
      if bar.partial then 0 else (bar.volume as real * fraction).Floor
    }

    predicate Crossed(side: Side, limit: real, bar: Candle) {
      match crossing
      case ThroughBar => if side.BUY? then bar.low < limit else bar.high > limit
      case TouchBar => if side.BUY? then bar.low <= limit else bar.high >= limit
    }

    function PriceAt(side: Side, limit: real, bar: Candle): real {
      match pricing
      case AtLimitPrice => limit
      case GapAwareSlippage(bps) =>
        if side.BUY? then
          MinReal(limit, PaisaUp(Raised(MinReal(limit, bar.open), bps)))
        else
          MaxReal(limit, PaisaDown(Lowered(MaxReal(limit, bar.open), bps)))
    }

    function PriceIfFilled(side: Side, limit: real, bar: Candle): Option<real> {
      if bar.partial || !Crossed(side, limit, bar) then None else Some(PriceAt(side, limit, bar))
    }

    predicate Triggers(side: Side, trigger: real, bar: Candle) {
      !bar.partial && if side.BUY? then bar.high >= trigger else bar.low <= trigger
    }

    /** A fill is never worse than the order's limit. */
    lemma FillPriceIsWithinLimit(side: Side, limit: real, bar: Candle)
      ensures WithinLimit(side, limit, PriceAt(side, limit, bar))
    {
    }

    /** What a buy pays: its limit; or under slippage its limit or the open, whichever is lower, raised by so
        many hundredths of a percent and on to the next paisa, unless its limit is lower still. */
    lemma BuyPays(limit: real, bar: Candle, slipped: real, p: real)
      requires pricing.GapAwareSlippage? ==>
                 && slipped == (if bar.open < limit then bar.open else limit) * (1.0 + pricing.bps / 10_000.0) >= 0.0
                 && PaisaAbove(p, slipped)
      ensures PriceAt(BUY, limit, bar) == if pricing.GapAwareSlippage? && p < limit then p else limit
    {
      if pricing.GapAwareSlippage? {
        hide PaisaUp;
        var reference := MinReal(limit, bar.open);
        assert Raised(reference, pricing.bps) == slipped;
        WholePaise(slipped);
        OnePaisa(p, PaisaUp(slipped));
      }
    }

    /** And what a sell gets: the other way round. */
    lemma SellGets(limit: real, bar: Candle, slipped: real, p: real)
      requires pricing.GapAwareSlippage? ==>
                 && slipped == (if bar.open > limit then bar.open else limit) * (1.0 - pricing.bps / 10_000.0) >= 0.0
                 && PaisaBelow(p, slipped)
      ensures PriceAt(SELL, limit, bar) == if pricing.GapAwareSlippage? && p > limit then p else limit
    {
      if pricing.GapAwareSlippage? {
        hide PaisaDown;
        var reference := MaxReal(limit, bar.open);
        assert Lowered(reference, pricing.bps) == slipped;
        WholePaise(slipped);
        OnePaisa(p, PaisaDown(slipped));
      }
    }

    /** The slippage model never gives a better price than the bar's open: slippage and rounding are
        both against the order. */
    lemma FillPriceIsHonest(side: Side, limit: real, bar: Candle)
      requires Valid()
      requires limit > 0.0
      requires pricing.GapAwareSlippage? ==> bar.open >= 0.0
      ensures side.BUY? ==> PriceAt(side, limit, bar) >= MinReal(limit, bar.open)
      ensures side.SELL? ==> PriceAt(side, limit, bar) <= MaxReal(limit, bar.open)
    {
      if pricing.GapAwareSlippage? {
        var reference := if side.BUY? then MinReal(limit, bar.open) else MaxReal(limit, bar.open);
        MovesAgainst(reference, pricing.bps);
        PaisaRounding(if side.BUY? then Raised(reference, pricing.bps) else Lowered(reference, pricing.bps));
      }
    }
  }

  lemma MovesAgainst(price: real, bps: real)
    requires price >= 0.0 && bps >= 0.0
    ensures Lowered(price, bps) <= price <= Raised(price, bps)
  {
    var slip := bps / 10_000.0;
    assert price * slip >= 0.0;
    assert price * (1.0 + slip) == price + price * slip;
    assert price * (1.0 - slip) == price - price * slip;
  }

  lemma PaisaRounding(x: real)
    ensures x >= 0.0 ==> 0.0 <= PaisaDown(x) <= x <= PaisaUp(x)
    ensures x < 0.0 ==> PaisaUp(x) <= x <= PaisaDown(x) <= 0.0
    ensures PaisaDown(x) > 0.0 <==> x >= 0.01
  {
    if x >= 0.0 {
      assert (x * 100.0).Floor >= 0;
    }
  }

  lemma OnePaisa(p: real, q: real)
    requires (p * 100.0).Floor as real == p * 100.0 && (q * 100.0).Floor as real == q * 100.0
    requires -0.01 < p - q < 0.01
    ensures p == q
  {
    var m, n := (p * 100.0).Floor, (q * 100.0).Floor;
    assert -1.0 < m as real - n as real < 1.0;
    assert m == n;
  }

  lemma WholePaise(x: real)
    requires x >= 0.0
    ensures PaisaAbove(PaisaUp(x), x) && PaisaBelow(PaisaDown(x), x)
  {
    PaisaRounding(x);
    assert PaisaUp(x) == (-(-x * 100.0).Floor) as real / 100.0;
  }

  /** A bar's capacity is the share of its volume, in whole shares, and nothing before it has closed:
      never negative, never more than was traded. */
  lemma CapacityWithinVolume(model: BarFillModel, bar: Candle)
    requires model.Valid()
    ensures 0 <= model.Capacity(bar) <= bar.volume
    ensures var capacity := model.Capacity(bar);
            if bar.partial then capacity == 0
            else capacity as real <= bar.volume as real * model.fraction < capacity as real + 1.0
  {
    assert bar.volume as real * model.fraction <= bar.volume as real;
  }
}
