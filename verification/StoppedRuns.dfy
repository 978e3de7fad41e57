/** Runs that stop, one for each reason a run can stop. */
module StoppedRuns {
  import opened Basics
  import opened Market
  import opened FillModel
  import opened Exchange
  import opened Ledger
  import opened Netting
  import opened Simulation
  import opened Safety
  import opened SessionSafety
  import opened RunSafety
  import opened Pricing

  /** No gate, no rejections, no charges; fills at the limit of every order the bar touches. */
  function Plain(m: Marketable, penalty: real, squareOffAt: int): Config
    requires m.Valid()
  {
    Config(BarFillModel(TouchBar, AtLimitPrice, 1.0), (_, _) => None, (_, s) => Pass(s),
           s => m.PricesOf(s), _ => 0.0, squareOffAt, penalty, OneRun("r"))
  }

  lemma PlainIsValid(m: Marketable, penalty: real, squareOffAt: int)
    requires m.Valid() && penalty >= 0.0
    ensures Plain(m, penalty, squareOffAt).Valid()
  {
  }

  /** A minute of trading at one price. */
  function Minute(k: nat, price: real): Candle {
    Candle("X", M1, 60_000_000 * k, price, price, price, price, 1, false)
  }

  const NEVER := 2 * DAY

  // ---- a signal no order can be built from -----------------------------------------------

  /** A valid signal: nothing compares its limit with its trigger before it is priced. */
  const WrongSide := Signal("r", "X", ENTRY, SELL, STOPLOSS_LIMIT, 1, 101.0, Some(100.0))

  lemma WrongSideIsUnbuildable(cfg: Config, m: Marketable, n: nat)
    requires m == Marketable(0.0, 1.0) && cfg.pricing(WrongSide) == m.PricesOf(WrongSide)
    ensures WrongSide.Valid() && !RequestFor(cfg, WrongSide, n).Valid()
  {
    m.BuildableIff(cfg, WrongSide, n);
    assert FloorTo(101.0, 1.0) == 101.0 && FloorTo(100.0, 1.0) == 100.0;
  }

  /** Before anything is traded, a bar only leaves its mark. */
  lemma QuietBar(cfg: Config, w: World, bar: Candle)
    requires w.fault.None? && w.x.orders == [] && w.queue == [] && w.pending.None?
    requires w.book.positions == map[]
    ensures BeforeBar(cfg, w, bar) == Marked(w.(bars := w.bars + [bar]), bar)
  {
    var m := Match(w.x, bar, w.now, cfg.model);
    assert m.events == [] && m.x == w.x;
    assert w.queue + [] == w.queue && w.pushed + [] == w.pushed && w.log + [] == w.log;
    assert MatchBar(cfg, w, bar) == w.(bars := w.bars + [bar]);
  }

  /** One bar, one answer, and the run is over. */
  lemma AnUnbuildableSignalStopsTheRun()
    ensures var cfg := Plain(Marketable(0.0, 1.0), 0.0, NEVER);
            && cfg.Valid() && ScriptValid([[WrongSide]])
            && Replay(cfg, Start(1000.0, 0, [[WrongSide]]), None, [Minute(0, 100.0)]).fault
               == Some(InvalidRequest(RequestFor(cfg, WrongSide, 1)))
  {
    hide BeforeBar, CloseDay, Marketable.PricesOf, Request.Valid;
    var cfg := Plain(Marketable(0.0, 1.0), 0.0, NEVER);
    var bar := Minute(0, 100.0);
    var w := Start(1000.0, 0, [[WrongSide]]);
    PlainIsValid(Marketable(0.0, 1.0), 0.0, NEVER);
    WrongSideIsUnbuildable(cfg, Marketable(0.0, 1.0), 1);
    QuietBar(cfg, Synced(w, bar), bar);
    var acted := BeforeBar(cfg, Synced(w, bar), bar);
    assert acted.script == [[WrongSide]] && acted.listening && acted.fault.None?;
    var heard := acted.(script := []);
    assert [[WrongSide]][1..] == [];
    assert SubmitSignal(cfg, heard, WrongSide).fault == Some(InvalidRequest(RequestFor(cfg, WrongSide, 1)));
    OneAnswer(cfg, heard, WrongSide);
    assert HandleBar(cfg, w, bar).fault.Some?;
    OneBarStops(cfg, w, bar);
  }

  lemma OneAnswer(cfg: Config, w: World, s: Signal)
    requires w.fault.None?
    ensures SubmitAll(cfg, w, [s]) == SubmitSignal(cfg, w, s)
  {
    hide SubmitSignal;
    assert [s][1..] == [];
    assert SubmitAll(cfg, SubmitSignal(cfg, w, s), []) == SubmitSignal(cfg, w, s);
  }

  lemma OneBarStops(cfg: Config, w: World, bar: Candle)
    requires w.fault.None? && HandleBar(cfg, w, bar).fault.Some?
    ensures Replay(cfg, w, None, [bar]) == HandleBar(cfg, w, bar)
  {
    hide HandleBar, CloseDay;
    assert [bar][1..] == [];
  }

  // ---- a position with no price to leave by ----------------------------------------------

  const Buy := Signal("r", "X", ENTRY, BUY, LIMIT, 1, 1.0, None)

  /** After the first minute the order rests, its acknowledgement queued, and the strategy is spent. */
  lemma Bought(m: Marketable, penalty: real, squareOffAt: int) returns (r: Request)
    requires m.Valid() && m.PricesOf(Buy).limit == 1.0 && penalty >= 0.0
    ensures var cfg := Plain(m, penalty, squareOffAt);
            var w := HandleBar(cfg, Start(1.0, 0, [[Buy]]), Minute(0, 0.01));
            && cfg.Valid() && ScriptValid([[Buy]]) && r == RequestFor(cfg, Buy, 1) && r.Valid()
            && w.fault.None? && w.script == [] && w.planned == {} && w.now == 60_000_000
            && w.x.orders == [Accepted(r, 60_000_000, None)] && NoFills(w.queue)
  {
    hide BeforeBar, Marketable.PricesOf;
    var cfg := Plain(m, penalty, squareOffAt);
    var bar := Minute(0, 0.01);
    var w := Start(1.0, 0, [[Buy]]);
    r := RequestFor(cfg, Buy, 1);
    PlainIsValid(m, penalty, squareOffAt);
    assert r.trigger == None by {
      NoTrigger(m);
    }
    QuietBar(cfg, Synced(w, bar), bar);
    var acted := BeforeBar(cfg, Synced(w, bar), bar);
    assert acted.script == [[Buy]] && acted.listening && acted.fault.None? && acted.now == 60_000_000;
    var heard := acted.(script := []);
    assert [[Buy]][1..] == [];
    OneAnswer(cfg, heard, Buy);
    assert [] + [Accepted(r, 60_000_000, None)] == [Accepted(r, 60_000_000, None)];
  }

  lemma NoTrigger(m: Marketable)
    requires m.Valid()
    ensures m.PricesOf(Buy).trigger == None
  {
  }

  /** With nothing left to answer, settling stops nothing. */
  lemma {:induction false} SpentSettles(cfg: Config, w: World)
    requires w.script == [] && w.fault.None?
    ensures Settle(cfg, w).fault.None? && Settle(cfg, w).script == []
    decreases Budget(w)
  {
    hide Apply, TallyOf, Budget;
    if w.queue != [] {
      SettleBudget(cfg, w);
      SpentSettles(cfg, Hear(cfg, PopAndBook(cfg, w)));
    }
  }

  /** The second minute fills it: one share is held, marked at the minute's price, square-off aside. */
  lemma Holding(cfg: Config, w: World, r: Request, price: real)
    requires cfg.Valid() && Inv(cfg, w) && w.fault.None? && w.script == [] && w.now <= 120_000_000
    requires cfg.model == BarFillModel(TouchBar, AtLimitPrice, 1.0)
    requires w.x.orders == [Accepted(r, 60_000_000, None)]
    requires r.instrument == "X" && r.side == BUY && r.orderType == LIMIT && r.quantity == 1 && price <= r.limit
    ensures var bar := Minute(1, price);
            var synced := Synced(w, bar);
            var marked := Marked(Settle(cfg, MatchBar(cfg, Settle(cfg, Recorded(synced, bar)), bar)), bar);
            && BeforeBar(cfg, synced, bar) == SquareOffIfDue(cfg, marked, bar)
            && Inv(cfg, marked) && marked.fault.None? && marked.queue == [] && marked.script == []
            && marked.planned == w.planned && marked.now == bar.ClosesAt()
            && marked.book.Net("X") == 1 && "X" in marked.book.marks && marked.book.marks["X"] == price
  {
    hide Inv, Settle, Recorded, LedgerNet, MatchBar, Equity, MatchUpTo;
    var bar := Minute(1, price);
    LaterKeeps(cfg, w, bar.ClosesAt());
    var synced := Synced(w, bar);
    BarStages(cfg, synced, bar);
    var recorded := Recorded(synced, bar);
    RecordedOrders(synced, bar);
    SpentSettles(cfg, recorded);
    SpentKeepsOrders(cfg, recorded);
    var answered := Settle(cfg, recorded);
    var matched := MatchBar(cfg, answered, bar);
    OneShareFills(cfg, answered, bar, r, price);
    SpentSettles(cfg, matched);
    SpentKeepsOrders(cfg, matched);
    var marked := Marked(Settle(cfg, matched), bar);
    BookAgrees(cfg, marked, "X");
  }

  lemma RecordedOrders(w: World, bar: Candle)
    ensures var r := Recorded(w, bar);
            r.x == w.x && r.script == w.script && r.fault == w.fault && r.planned == w.planned
  {
  }

  lemma {:induction false} SpentKeepsOrders(cfg: Config, w: World)
    requires w.script == [] && w.fault.None?
    ensures Settle(cfg, w).x == w.x
    decreases Budget(w)
  {
    hide Apply, TallyOf, Budget;
    if w.queue != [] {
      SettleBudget(cfg, w);
      SpentKeepsOrders(cfg, Hear(cfg, PopAndBook(cfg, w)));
    }
  }

  lemma OneShareFills(cfg: Config, w: World, bar: Candle, r: Request, price: real)
    requires w.fault.None? && bar == Minute(1, price) && cfg.model == BarFillModel(TouchBar, AtLimitPrice, 1.0)
    requires w.x.orders == [Accepted(r, 60_000_000, None)]
    requires r.instrument == "X" && r.side == BUY && r.orderType == LIMIT && r.quantity == 1 && price <= r.limit
    ensures var w' := MatchBar(cfg, w, bar);
            w'.fault.None? && w'.script == w.script && LedgerNet(w'.x.orders, "X") == 1
  {
    var o := w.x.orders[0];
    assert cfg.model.Capacity(bar) == 1;
    assert MatchUpTo(w.x, bar, w.now, cfg.model, 1, 0) == Matching(w.x, 1, []);
    assert EffectOn(o, bar, 1, cfg.model) == Trades(1, r.limit);
    var done := Filled(o, 1, r.limit);
    assert w.x.orders[0 := done] == [done];
    assert [done][..0] == [];
    assert LedgerNet([done], "X") == 1;
  }

  /** A long marked at a paisa, a penalty of fifty basis points: no paisa is left of its price. */
  lemma AnUnclosablePositionStopsTheRun()
    ensures var cfg := Plain(Marketable(0.0, 1.0), 50.0, NEVER);
            var w := Replay(cfg, Start(1.0, 0, [[Buy]]), None, [Minute(0, 0.01), Minute(1, 0.01)]);
            cfg.Valid() && ScriptValid([[Buy]]) && ForcedStop(w) && Inv(cfg, w)
  {
    hide HandleBar, CloseDay, Inv, NoFills, Marketable.PricesOf;
    var m := Marketable(0.0, 1.0);
    var cfg := Plain(m, 50.0, NEVER);
    BuysAtOne(m);
    var r := Bought(m, 50.0, NEVER);
    var w0 := Start(1.0, 0, [[Buy]]);
    var w1 := HandleBar(cfg, w0, Minute(0, 0.01));
    StartRuns(cfg, w0, Minute(0, 0.01));
    NotDueYet(cfg, w1, r, 0.01);
    var w2 := HandleBar(cfg, w1, Minute(1, 0.01));
    assert Lowered(0.01, 50.0) == 0.00995;
    LongClosable(cfg, w2.book, "X");
    DayCloses(cfg, w2);
    SpentExpires(cfg, w2);
    TwoBars(cfg, w0, Minute(0, 0.01), Minute(1, 0.01));
  }

  lemma BuysAtOne(m: Marketable)
    requires m == Marketable(0.0, 1.0)
    ensures m.PricesOf(Buy).limit == 1.0
  {
    hide CeilTo, FloorTo;
    RoundsToItself();
    assert m.Aim(Buy) == 1.0;
  }

  lemma RoundsToItself()
    ensures CeilTo(1.0, 1.0) == 1.0
  {
    assert -1.0 / 1.0 == -1.0;
  }

  lemma StartRuns(cfg: Config, w0: World, bar: Candle)
    requires cfg.Valid() && w0 == Start(1.0, 0, [[Buy]]) && bar.Valid() && bar.ts == 0 && bar.timeframe == M1
    ensures Inv(cfg, w0) && Inv(cfg, HandleBar(cfg, w0, bar)) && w0.fault.None?
  {
    hide Inv, HandleBar;
    assert ScriptValid([[Buy]]);
    StartsBetween(cfg, 1.0, 0, [[Buy]], [bar], M1);
    HandleKeeps(cfg, w0, bar);
  }

  /** With square-off never due, the second minute ends with one share held. */
  lemma NotDueYet(cfg: Config, w: World, r: Request, price: real)
    requires cfg.Valid() && Inv(cfg, w) && w.fault.None? && w.script == [] && w.now <= 120_000_000
    requires cfg.model == BarFillModel(TouchBar, AtLimitPrice, 1.0) && cfg.squareOffAt == NEVER
    requires w.x.orders == [Accepted(r, 60_000_000, None)]
    requires r.instrument == "X" && r.side == BUY && r.orderType == LIMIT && r.quantity == 1 && price <= r.limit
    ensures var w' := HandleBar(cfg, w, Minute(1, price));
            && Inv(cfg, w') && w'.fault.None? && w'.script == [] && NoFills(w'.queue)
            && w'.book.Net("X") == 1 && "X" in w'.book.marks && w'.book.marks["X"] == price
  {
    hide Inv, Settle, Marked, MatchBar, Recorded;
    Holding(cfg, w, r, price);
    HandleKeeps(cfg, w, Minute(1, price));
  }

  lemma SpentExpires(cfg: Config, w: World)
    requires w.script == [] && w.fault.None?
    ensures Expired(cfg, w).fault.None?
  {
    hide Settle;
    SpentSettles(cfg, w);
    SpentSettles(cfg, ExpireAll(Settle(cfg, w)));
  }

  lemma TwoBars(cfg: Config, w: World, a: Candle, b: Candle)
    requires w.fault.None? && DayOf(a.ts) == DayOf(b.ts)
    ensures var w2 := HandleBar(cfg, HandleBar(cfg, w, a), b);
            HandleBar(cfg, w, a).fault.None? ==>
              Replay(cfg, w, None, [a, b]) == if w2.fault.None? then CloseDay(cfg, w2) else w2
  {
    hide HandleBar, CloseDay;
    assert [a, b][1..] == [b] && [b][1..] == [];
    var w1 := HandleBar(cfg, w, a);
    if w1.fault.None? {
      assert Replay(cfg, w1, Some(DayOf(a.ts)), [b])
          == Replay(cfg, HandleBar(cfg, w1, b), Some(DayOf(b.ts)), []);
    }
  }

  // ---- an exit with no price to leave by -------------------------------------------------

  /** Square-off due from the first minute on: the exit's price, below a tick, makes no order. */
  lemma AnUnbuildableExitStopsTheRun()
    ensures var cfg := Plain(Marketable(0.0, 1.0), 0.0, 0);
            var w := Replay(cfg, Start(1.0, 0, [[Buy]]), None, [Minute(0, 0.01), Minute(1, 0.01)]);
            && cfg.Valid() && ScriptValid([[Buy]]) && w.fault.Some? && w.fault.value.InvalidRequest?
            && w.fault.value.request.tag.BT? && w.fault.value.request.limit == 0.0
  {
    hide HandleBar, CloseDay, Inv, NoFills, Marketable.PricesOf, Request.Valid, SquareOffIfDue;
    var m := Marketable(0.0, 1.0);
    var cfg := Plain(m, 0.0, 0);
    BuysAtOne(m);
    var r := Bought(m, 0.0, 0);
    var w0, bar := Start(1.0, 0, [[Buy]]), Minute(1, 0.01);
    var w1 := HandleBar(cfg, w0, Minute(0, 0.01));
    StartRuns(cfg, w0, Minute(0, 0.01));
    var marked := DueNow(cfg, w1, r, 0.01);
    ExitFate(cfg, marked, bar);
    SellsForNothing(cfg, m, Exit(cfg, marked, bar));
    ExitStops(cfg, marked, bar);
    TwoBars(cfg, w0, Minute(0, 0.01), bar);
  }

  /** And a close that is no price makes not even a signal. */
  lemma ACloseOfNothingStopsTheRun()
    ensures var cfg := Plain(Marketable(0.0, 1.0), 0.0, 0);
            var w := Replay(cfg, Start(1.0, 0, [[Buy]]), None, [Minute(0, 0.01), Minute(1, 0.0)]);
            cfg.Valid() && ScriptValid([[Buy]]) && w.fault.Some? && w.fault.value.InvalidSignal?
  {
    hide HandleBar, CloseDay, Inv, NoFills, Marketable.PricesOf, Request.Valid, SquareOffIfDue;
    var m := Marketable(0.0, 1.0);
    var cfg := Plain(m, 0.0, 0);
    BuysAtOne(m);
    var r := Bought(m, 0.0, 0);
    var w0, bar := Start(1.0, 0, [[Buy]]), Minute(1, 0.0);
    var w1 := HandleBar(cfg, w0, Minute(0, 0.01));
    StartRuns(cfg, w0, Minute(0, 0.01));
    var marked := DueNow(cfg, w1, r, 0.0);
    ExitFate(cfg, marked, bar);
    TwoBars(cfg, w0, Minute(0, 0.01), bar);
  }

  /** The second minute, up to its square-off, which is due. */
  lemma DueNow(cfg: Config, w: World, r: Request, price: real) returns (marked: World)
    requires cfg.Valid() && Inv(cfg, w) && w.fault.None? && w.script == [] && w.planned == {}
    requires w.now <= 120_000_000
    requires cfg.model == BarFillModel(TouchBar, AtLimitPrice, 1.0) && cfg.squareOffAt == 0
    requires w.x.orders == [Accepted(r, 60_000_000, None)]
    requires r.instrument == "X" && r.side == BUY && r.orderType == LIMIT && r.quantity == 1 && price <= r.limit
    ensures var bar := Minute(1, price);
            && Inv(cfg, marked) && marked.fault.None? && marked.queue == [] && marked.now == bar.ClosesAt()
            && DueForSquareOff(cfg, marked, bar) && marked.book.Net("X") == 1
            && (SquareOffIfDue(cfg, marked, bar).fault.Some? ==>
                  HandleBar(cfg, w, bar) == SquareOffIfDue(cfg, marked, bar))
  {
    hide Inv, Settle, Marked, MatchBar, Recorded, SquareOffIfDue;
    Holding(cfg, w, r, price);
    var bar := Minute(1, price);
    var synced := Synced(w, bar);
    marked := Marked(Settle(cfg, MatchBar(cfg, Settle(cfg, Recorded(synced, bar)), bar)), bar);
    var done := SquareOffIfDue(cfg, marked, bar);
    if done.fault.Some? {
      NoReply(cfg, done);
    }
  }

  lemma SellsForNothing(cfg: Config, m: Marketable, exit: Signal)
    requires m == Marketable(0.0, 1.0) && cfg.pricing(exit) == m.PricesOf(exit)
    requires exit.orderType == LIMIT && exit.side == SELL && exit.limit == 0.01 && exit.Valid()
    ensures m.PricesOf(exit).limit == 0.0
  {
    assert FloorTo(0.01, 1.0) == 0.0;
  }

  lemma ExitStops(cfg: Config, w: World, bar: Candle)
    requires cfg.Valid() && Inv(cfg, w) && w.fault.None? && w.queue == [] && DueForSquareOff(cfg, w, bar)
    requires w.now == bar.ClosesAt() && bar.close > 0.0
    requires OwnerOf(cfg, w.book, bar.instrument).Ok?
    requires forall n, s :: cfg.gate(n, s) == Pass(s)
    requires cfg.pricing(Exit(cfg, w, bar)).limit == 0.0
    ensures var w' := SquareOffIfDue(cfg, w, bar);
            && w'.fault.Some? && w'.fault.value.InvalidRequest?
            && w'.fault.value.request.tag.BT? && w'.fault.value.request.limit == 0.0
  {
    hide Inv, Settle, CancelAll, SquareOffIfDue;
    ExitFate(cfg, w, bar);
    var sent := SubmitSystem(cfg, Cleared(w, bar), Exit(cfg, w, bar));
    Stays(cfg, sent);
  }
}
