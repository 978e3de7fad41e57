/** The day as a whole: after square-off the position only shrinks, every day ends flat with nothing
    resting, and no lookup on the way can fail. */
module SessionSafety {
  import opened Basics
  import opened Market
  import opened FillModel
  import opened Exchange
  import opened Ledger
  import opened Netting
  import opened Simulation
  import opened Lookahead
  import opened ExitOnly
  import opened Safety

  // ---- square-off ------------------------------------------------------------------------

  /** Cancelling a list of resting orders closes exactly those. */
  lemma {:induction false} CancelAllKeeps(cfg: Config, w: World, ids: seq<nat>)
    requires cfg.Valid() && Inv(cfg, w) && w.fault.None?
    requires forall k :: 0 <= k < |ids| ==> ids[k] < |w.x.orders| && w.x.orders[ids[k]].IsOpen()
    requires forall j, k :: 0 <= j < k < |ids| ==> ids[j] != ids[k]
    ensures var w' := CancelAll(w, ids);
            && Inv(cfg, w') && Quiet(w.(listening := true), w'.(listening := true))
            && w'.book == w.book && w'.listening == w.listening && w'.script == w.script
            && w'.fault.None? && w'.counters == w.counters && |w'.x.orders| == |w.x.orders|
            && (forall id :: 0 <= id < |w.x.orders| ==>
                  w'.x.orders[id] == if id in ids then Cancelled(w.x.orders[id]) else w.x.orders[id])
    decreases ids
  {
    hide Inv, LedgerNet;
    if ids != [] {
      CancelKeeps(cfg, w, ids[0]);
      var w1 := CancelAll(w, [ids[0]]);
      CancelSplits(w, ids);
      CancelAllKeeps(cfg, w1, ids[1..]);
    }
  }

  lemma CancelSplits(w: World, ids: seq<nat>)
    requires ids != [] && w.fault.None? && ids[0] < |w.x.orders| && w.x.orders[ids[0]].IsOpen()
    ensures CancelAll(w, ids) == CancelAll(CancelAll(w, [ids[0]]), ids[1..])
  {
    assert [ids[0]][1..] == [];
  }

  lemma {:induction false} CancelIgnoresPlan(
    w: World, ids: seq<nat>, planned: set<(int, Instrument)>, exits: map<Instrument, nat>)
    ensures CancelAll(w.(planned := planned, exits := exits), ids)
         == CancelAll(w, ids).(planned := planned, exits := exits)
    decreases ids
  {
    if ids != [] && w.fault.None? {
      var c := Cancel(w.x, ids[0], w.now);
      if c.Ok? {
        CancelIgnoresPlan(Push(w.(x := c.value.0), [c.value.1]), ids[1..], planned, exits);
      }
    }
  }

  /** The owner of a position is always known. */
  lemma OwnerKnown(cfg: Config, w: World, i: Instrument)
    requires cfg.Valid() && Inv(cfg, w) && w.book.Net(i) != 0
    ensures OwnerOf(cfg, w.book, i).Ok? && OwnerOf(cfg, w.book, i).value != "" && i != ""
  {
    assert InstrumentOk(w.book, BookingsOf(cfg, w.settled), i);
  }

  /** An exit once sent stays the instrument's exit for the day. */
  ghost predicate SameExits(w: World, w': World) {
    forall i :: Blocked(w, i) && i in w.exits ==> i in w'.exits && w'.exits[i] == w.exits[i]
  }

  /** Besides what the session notes of its plans, nothing has traded, moved or passed. */
  ghost predicate QuietBut(w: World, w': World) {
    Quiet(w.(planned := w'.planned, exits := w'.exits, listening := true), w'.(listening := true))
  }

  /** The instrument just before its exit is sent: cancelled clean, the session's for the day, and the
      exit's place known. */
  lemma PlanKeeps(cfg: Config, w: World, bar: Candle)
    requires cfg.Valid() && Inv(cfg, w) && w.fault.None? && w.queue == [] && DueForSquareOff(cfg, w, bar)
    requires w.now == bar.ClosesAt()
    ensures var i := bar.instrument;
            var w' := CancelAll(Planned(w, bar), Resting(w.x.orders, Some(i)));
            && Inv(cfg, w') && w'.fault.None? && w'.book == w.book && Blocked(w', i)
            && w'.planned == Planned(w, bar).planned && w'.exits == Planned(w, bar).exits
            && w'.exits[i] == |w'.x.orders| && |w'.x.orders| == |w.x.orders|
            && !Rests(w'.x.orders, i) && LedgerNet(w'.x.orders, i) == w.book.Net(i)
            && QuietBut(w, w') && w'.listening == w.listening && w'.script == w.script
  {
    hide Agrees, OnlyExit, LedgerNet, ArmsHonest, LogHonest, MatchedOrders, LogOrders, BookOk, OutcomesOf,
         NamesOk, ScriptValid, BookingsOf, TallyAll, CancelAll, Resting, FillsWithinLimits, Closable;
    var i := bar.instrument;
    var ids := Resting(w.x.orders, Some(i));
    RestingExactly(w.x.orders, Some(i));
    assert forall k :: 0 <= k < |ids| ==> ids[k] in ids;
    CancelAllKeeps(cfg, w, ids);
    CancelIgnoresPlan(w, ids, Planned(w, bar).planned, Planned(w, bar).exits);
    BookAgrees(cfg, w, i);
    var c := CancelAll(w, ids);
    forall k | 0 <= k < |c.x.orders| ensures !RestsIn(c.x.orders[k], Some(i)) {
      assert RestsIn(w.x.orders[k], Some(i)) ==> k in ids;
    }
    NoneRests(c.x.orders, i, |w.x.orders|);
  }

  /** A plan whose exit cannot be built stops the run. */
  lemma PlanStops(cfg: Config, w: World, bar: Candle)
    requires cfg.Valid() && Inv(cfg, w) && w.fault.None? && DueForSquareOff(cfg, w, bar)
    requires w.now == bar.ClosesAt() && OwnerOf(cfg, w.book, bar.instrument).Ok?
    requires OwnerOf(cfg, w.book, bar.instrument).value != "" && bar.instrument != ""
    ensures var exit := ExitSignal(OwnerOf(cfg, w.book, bar.instrument).value, bar, w.book.Net(bar.instrument));
            && (exit.Valid() <==> bar.close > 0.0)
            && (!exit.Valid() ==> Inv(cfg, Planned(w, bar).(fault := Some(InvalidSignal(exit)))))
  {
    hide Agrees, OnlyExit, LedgerNet, ArmsHonest, LogHonest, MatchedOrders, LogOrders, BookOk, OutcomesOf,
         NamesOk, ScriptValid, BookingsOf, TallyAll, AllConsistent, FillsWithinLimits, Closable;
  }

  /** What square-off sends, and the world it sends it in. */
  function Exit(cfg: Config, w: World, bar: Candle): Signal
    requires OwnerOf(cfg, w.book, bar.instrument).Ok?
  {
    ExitSignal(OwnerOf(cfg, w.book, bar.instrument).value, bar, w.book.Net(bar.instrument))
  }

  function Cleared(w: World, bar: Candle): World {
    CancelAll(Planned(w, bar), Resting(w.x.orders, Some(bar.instrument)))
  }

  /** What square-off makes of a plan that is due, and exactly when the exit itself stops the run. */
  lemma ExitFate(cfg: Config, w: World, bar: Candle)
    requires cfg.Valid() && Inv(cfg, w) && w.fault.None? && w.queue == [] && DueForSquareOff(cfg, w, bar)
    requires w.now == bar.ClosesAt()
    ensures OwnerOf(cfg, w.book, bar.instrument).Ok?
    ensures var exit, c, w' := Exit(cfg, w, bar), Cleared(w, bar), SquareOffIfDue(cfg, w, bar);
            var sent := SubmitSystem(cfg, c, exit);
            && (exit.Valid() <==> bar.close > 0.0)
            && (!exit.Valid() ==>
                  Inv(cfg, w') && w' == Planned(w, bar).(fault := Some(InvalidSignal(exit))))
            && (exit.Valid() ==>
                  && c.fault.None? && Inv(cfg, c) && QuietBut(w, c) && Blocked(c, bar.instrument)
                  && c.planned == Planned(w, bar).planned && c.exits == Planned(w, bar).exits
                  && c.listening == w.listening && c.book == w.book
                  && Inv(cfg, sent) && Steady(c, sent) && sent.book == w.book && w' == Settle(cfg, sent)
                  && (forall i :: LedgerNet(sent.x.orders, i) == LedgerNet(c.x.orders, i))
                  && (sent.fault.Some? <==> ExitUnbuildable(cfg, c, exit)))
  {
    hide Inv, LedgerNet, Settle, Route, CancelAll, Resting, OnlyExit;
    var i := bar.instrument;
    OwnerKnown(cfg, w, i);
    PlanStops(cfg, w, bar);
    PlanKeeps(cfg, w, bar);
    if Exit(cfg, w, bar).Valid() {
      SendExit(cfg, Cleared(w, bar), Exit(cfg, w, bar));
    }
  }

  /** Gated and priced, the session's exit makes no order. */
  predicate ExitUnbuildable(cfg: Config, w: World, s: Signal) {
    Unbuildable(cfg, w.(counters := w.counters.(squareOffSignals := w.counters.squareOffSignals + 1)), s)
  }

  /** Square-off keeps the invariant and moves no position, and the instrument is the session's from
      then on. */
  lemma SquareOffKeeps(cfg: Config, w: World, bar: Candle)
    requires cfg.Valid() && Inv(cfg, w) && w.fault.None? && w.queue == [] && w.now == bar.ClosesAt()
    ensures var w' := SquareOffIfDue(cfg, w, bar);
            && Inv(cfg, w') && (w'.fault.None? ==> w'.queue == [])
            && w.planned <= w'.planned && w'.listening == w.listening && QuietBut(w, w')
            && (DueForSquareOff(cfg, w, bar) ==> Blocked(w', bar.instrument)) && SameExits(w, w')
  {
    hide Inv, LedgerNet, Settle, SubmitSystem, CancelAll, Resting, OnlyExit, Unbuildable;
    if DueForSquareOff(cfg, w, bar) {
      ExitFate(cfg, w, bar);
      if Exit(cfg, w, bar).Valid() {
        SettleKeeps(cfg, SubmitSystem(cfg, Cleared(w, bar), Exit(cfg, w, bar)));
      }
    }
  }

  lemma SendExit(cfg: Config, w: World, s: Signal)
    requires cfg.Valid() && Inv(cfg, w) && w.fault.None? && s.Valid()
    requires Blocked(w, s.instrument) && w.exits[s.instrument] == |w.x.orders|
    requires !Rests(w.x.orders, s.instrument) && LedgerNet(w.x.orders, s.instrument) != 0
    requires s.side.SELL? <==> LedgerNet(w.x.orders, s.instrument) > 0
    requires s.quantity <= Abs(LedgerNet(w.x.orders, s.instrument))
    ensures var w' := SubmitSystem(cfg, w, s);
            && Inv(cfg, w') && w'.book == w.book && w'.script == w.script && Steady(w, w')
            && (forall i :: LedgerNet(w'.x.orders, i) == LedgerNet(w.x.orders, i))
            && (w'.fault.Some? <==> ExitUnbuildable(cfg, w, s))
  {
    hide Agrees, OnlyExit, LedgerNet, ArmsHonest, LogHonest, MatchedOrders, LogOrders, BookOk, OutcomesOf,
         NamesOk, ScriptValid, BookingsOf, TallyAll, Route, AllConsistent, FillsWithinLimits, Closable;
    var counted := w.(counters := w.counters.(squareOffSignals := w.counters.squareOffSignals + 1));
    RouteKeeps(cfg, counted, s);
    RouteFrame(cfg, counted, s);
  }

  // ---- one bar ---------------------------------------------------------------------------

  lemma CurveKeepsBook(cfg: Config, w: World, b: Book, pending: Option<int>)
    requires Inv(cfg, w) && w.fault.None?
    requires b == w.book.(curve := b.curve, marks := b.marks)
    requires forall i :: i in w.book.marks ==> i in b.marks
    ensures Inv(cfg, w.(book := b, pending := pending))
  {
    hide Agrees, OnlyExit, LedgerNet, ArmsHonest, LogHonest, MatchedOrders, LogOrders, OutcomesOf,
         ScriptValid, BookingsOf, TallyAll, AllConsistent, TripOk, NetOf, CashOf, ChargesOf,
         ClosedGross, ClosedFees, FillsWithinLimits, Closable;
    var history := BookingsOf(cfg, w.settled);
    forall i ensures InstrumentOk(b, history, i) {
      assert InstrumentOk(w.book, history, i);
      assert b.Held(i) == w.book.Held(i) && b.TripOf(i) == w.book.TripOf(i);
    }
  }

  /** The position in an instrument the session owns only shrinks; elsewhere anything may happen. */
  ghost predicate OwnedShrink(w: World, w': World) {
    forall i :: Blocked(w, i) ==> Shrinks(LedgerNet(w.x.orders, i), LedgerNet(w'.x.orders, i))
  }

  lemma RecordKeeps(cfg: Config, w: World)
    requires Inv(cfg, w)
    ensures Inv(cfg, RecordPending(w))
  {
    hide Inv, Equity;
    if w.pending.Some? && w.fault.None? {
      CurveKeepsBook(cfg, w, RecordPending(w).book, None);
    }
  }

  lemma MarkKeeps(cfg: Config, w: World, bar: Candle)
    requires Inv(cfg, w)
    ensures Inv(cfg, Marked(w, bar))
  {
    hide Inv;
    if w.fault.None? {
      CurveKeepsBook(cfg, w, Marked(w, bar).book, Marked(w, bar).pending);
    }
  }

  /** The stages of a bar, as far as they get before something stops the run. */
  lemma BarStages(cfg: Config, w: World, bar: Candle)
    requires cfg.Valid() && Inv(cfg, w) && w.fault.None? && w.now == bar.ClosesAt()
    ensures var recorded := Recorded(w, bar);
            var answered := Settle(cfg, recorded);
            var matched := MatchBar(cfg, answered, bar);
            var marked := Marked(Settle(cfg, matched), bar);
            && Inv(cfg, recorded) && recorded.fault.None?
            && Inv(cfg, answered) && Inv(cfg, matched) && Inv(cfg, marked)
            && (marked.fault.None? ==> marked.queue == [])
            && OwnedShrink(w, marked) && marked.now == w.now && marked.planned == w.planned
            && marked.exits == w.exits
            && marked.listening == w.listening && marked.book.startingCash == w.book.startingCash
            && (marked.fault.None? ==>
                  && marked.pending == Some(bar.ClosesAt()) && marked.bars == w.bars + [bar]
                  && marked.book.curve == recorded.book.curve)
  {
    hide Inv, LedgerNet, Settle, MatchBar, Shrinks, Equity;
    var recorded := Recorded(w, bar);
    RecordKeeps(cfg, w);
    SettleKeeps(cfg, recorded);
    var answered := Settle(cfg, recorded);
    MatchKeeps(cfg, answered, bar);
    MatchBarFrame(cfg, answered, bar);
    var matched := MatchBar(cfg, answered, bar);
    SettleKeeps(cfg, matched);
    if matched.fault.Some? {
      Stays(cfg, matched);
    }
    MarkKeeps(cfg, Settle(cfg, matched), bar);
  }

  /** Everything around a bar keeps the invariant; owned positions only shrink. */
  lemma BarKeeps(cfg: Config, w: World, bar: Candle)
    requires cfg.Valid() && Inv(cfg, w) && w.fault.None? && bar.Valid() && w.now == bar.ClosesAt()
    ensures var w' := BeforeBar(cfg, w, bar);
            && Inv(cfg, w') && OwnedShrink(w, w') && SameExits(w, w')
            && w'.now == w.now && w.planned <= w'.planned && w'.listening == w.listening
            && (w'.fault.None? ==>
                  && w'.queue == [] && w'.pending == Some(bar.ClosesAt()) && w'.bars == w.bars + [bar]
                  && w'.book.curve == Recorded(w, bar).book.curve
                  && w'.book.startingCash == w.book.startingCash
                  && (w'.book.Net(bar.instrument) != 0 && TimeOfDay(bar.ClosesAt()) >= cfg.squareOffAt ==>
                        Blocked(w', bar.instrument)))
  {
    hide Inv, LedgerNet, Settle, MatchBar, SquareOffIfDue, Marked, Recorded, Shrinks;
    BarStages(cfg, w, bar);
    var marked := Marked(Settle(cfg, MatchBar(cfg, Settle(cfg, Recorded(w, bar)), bar)), bar);
    if marked.fault.None? {
      SquareOffKeeps(cfg, marked, bar);
      DueOrNot(cfg, marked, bar);
    } else {
      Frozen(cfg, marked, bar);
    }
  }

  lemma Frozen(cfg: Config, w: World, bar: Candle)
    requires w.fault.Some?
    ensures SquareOffIfDue(cfg, w, bar) == w
  {
  }

  lemma MatchBarFrame(cfg: Config, w: World, bar: Candle)
    ensures var w' := MatchBar(cfg, w, bar);
            && w'.now == w.now && w'.planned == w.planned && w'.exits == w.exits
            && (w.fault.None? ==> w'.bars == w.bars + [bar])
            && w'.pending == w.pending && w'.listening == w.listening && w'.book == w.book
  {
  }

  /** Either the exit was due just now, or the session owned the instrument already. */
  lemma DueOrNot(cfg: Config, w: World, bar: Candle)
    requires cfg.Valid() && Inv(cfg, w) && w.fault.None? && w.queue == [] && bar.Valid()
    requires w.now == bar.ClosesAt()
    ensures var w' := SquareOffIfDue(cfg, w, bar);
            w'.fault.None? && w'.book.Net(bar.instrument) != 0 && TimeOfDay(bar.ClosesAt()) >= cfg.squareOffAt ==>
              Blocked(w', bar.instrument)
  {
    hide Inv, LedgerNet, SquareOffIfDue;
    SquareOffKeeps(cfg, w, bar);
    BookAgrees(cfg, w, bar.instrument);
    if SquareOffIfDue(cfg, w, bar).fault.None? {
      BookAgrees(cfg, SquareOffIfDue(cfg, w, bar), bar.instrument);
    }
  }

  // ---- the end of the day ----------------------------------------------------------------

  /** A forced price is the last price moved against us: never better than it, and the first whole paisa
      past it once the penalty, in hundredths of a percent, is counted. */
  lemma ForcedPriceIsAgainstUs(cfg: Config, side: Side, last: real)
    requires last >= 0.0 && 0.0 <= cfg.penalty <= 10_000.0
    ensures var price := ForcedPrice(cfg, side, last);
            if side.BUY? then last <= price && PaisaAbove(price, last * (1.0 + cfg.penalty / 10_000.0))
            else price <= last && PaisaBelow(price, last * (1.0 - cfg.penalty / 10_000.0))
  {
    MovesAgainst(last, cfg.penalty);
    LoweredStays(last, cfg.penalty);
    WholePaise(Raised(last, cfg.penalty));
    WholePaise(Lowered(last, cfg.penalty));
  }

  lemma LoweredStays(last: real, bps: real)
    requires last >= 0.0 && 0.0 <= bps <= 10_000.0
    ensures Lowered(last, bps) >= 0.0
  {
  }

  /** A long can be closed exactly when at least one paisa is left of its price after the penalty. */
  lemma LongClosable(cfg: Config, b: Book, i: Instrument)
    requires b.Net(i) > 0 && i in b.marks
    ensures Closable(cfg, b, i) <==> b.marks[i] * (1.0 - cfg.penalty / 10_000.0) >= 0.01
  {
    PaisaRounding(Lowered(b.marks[i], cfg.penalty));
  }

  /** A short can be closed exactly when its price is positive: the penalty only raises it. */
  lemma ShortClosable(cfg: Config, b: Book, i: Instrument)
    requires b.Net(i) < 0 && i in b.marks && cfg.penalty >= 0.0
    ensures Closable(cfg, b, i) <==> b.marks[i] > 0.0
  {
    var raised := Raised(b.marks[i], cfg.penalty);
    assert raised == b.marks[i] * (1.0 + cfg.penalty / 10_000.0);
    PaisaRounding(raised);
  }

  /** Forcing one position: it is gone from the exchange, or the price was no price. */
  lemma ForceKeeps(cfg: Config, w: World, i: Instrument)
    requires cfg.Valid() && Inv(cfg, w) && w.fault.None? && w.book.Net(i) != 0
    requires Blocked(w, i) ==> !Rests(w.x.orders, i)
    ensures var w' := ForceClose(cfg, w, i);
            && Inv(cfg, w') && (w'.fault.None? <==> Closable(cfg, w.book, i))
            && w'.book == w.book && w'.script == w.script && Steady(w, w')
            && (w'.fault.Some? ==> ForcedStop(w'))
            && (w'.fault.None? ==>
                  && (forall j :: LedgerNet(w'.x.orders, j)
                        == LedgerNet(w.x.orders, j) - if j == i then w.book.Net(i) else 0)
                  && (forall j :: !Rests(w.x.orders, j) ==> !Rests(w'.x.orders, j)))
  {
    hide Inv, LedgerNet, Rests, ForcedPrice;
    OwnerKnown(cfg, w, i);
    MarkKnown(cfg, w, i);
    if Closable(cfg, w.book, i) {
      ForceTrades(cfg, w, i);
    } else {
      ForceStops(cfg, w, i);
    }
  }

  /** The run was stopped by a forced trade. */
  ghost predicate ForcedStop(w: World) {
    w.fault.Some? && w.fault.value.InvalidRequest? && w.fault.value.request.tag.SquareOffTag?
  }

  lemma ForceStops(cfg: Config, w: World, i: Instrument)
    requires cfg.Valid() && Inv(cfg, w) && w.fault.None? && w.book.Net(i) != 0 && !Closable(cfg, w.book, i)
    requires i in w.book.marks && OwnerOf(cfg, w.book, i).Ok?
    ensures var w' := ForceClose(cfg, w, i);
            Inv(cfg, w') && ForcedStop(w') && w' == w.(fault := w'.fault)
  {
    hide Agrees, OnlyExit, LedgerNet, ArmsHonest, LogHonest, MatchedOrders, LogOrders, BookOk, OutcomesOf,
         NamesOk, ScriptValid, BookingsOf, TallyAll, ForcedPrice, AllConsistent, FillsWithinLimits;
  }

  lemma ForceTrades(cfg: Config, w: World, i: Instrument)
    requires cfg.Valid() && Inv(cfg, w) && w.fault.None? && w.book.Net(i) != 0 && Closable(cfg, w.book, i)
    requires Blocked(w, i) ==> !Rests(w.x.orders, i)
    requires OwnerOf(cfg, w.book, i).Ok? && OwnerOf(cfg, w.book, i).value != "" && i != ""
    ensures var w' := ForceClose(cfg, w, i);
            && Inv(cfg, w') && w'.fault.None? && w'.book == w.book && w'.script == w.script && Steady(w, w')
            && (forall j :: LedgerNet(w'.x.orders, j)
                  == LedgerNet(w.x.orders, j) - if j == i then w.book.Net(i) else 0)
            && (forall j :: !Rests(w.x.orders, j) ==> !Rests(w'.x.orders, j))
  {
    hide Agrees, OnlyExit, LedgerNet, ArmsHonest, LogHonest, MatchedOrders, LogOrders, BookOk, OutcomesOf,
         NamesOk, ScriptValid, BookingsOf, TallyAll, Rests, FillsWithinLimits, Stopped, Closable, ForceClose, SquareOff,
         Says;
    var net := w.book.Net(i);
    var x, e := ForcedTrade(cfg, w, i);
    var o := x.orders[|w.x.orders|];
    AgreesAppend(w.x, w.pushed, o, x.tags, x.fills, e);
    OutcomesAppend(w.x.orders, o);
    OrdersAppend(w.x.orders, o, w.log, w.bars, cfg.model);
    Unmatched(w.pushed, e);
    OneUnmatched(x.orders, e);
    FillsStayWithin(w.x.orders, x.orders, w.pushed, [e]);
    forall j ensures LedgerNet(x.orders, j) == LedgerNet(w.x.orders, j) - if j == i then net else 0 {
      LedgerNetAppend(w.x.orders, o, j);
    }
    forall j ensures !Rests(w.x.orders, j) ==> !Rests(x.orders, j) {
      ClosedNeverRests(w.x.orders, o, j, 0);
    }
    forall j | Blocked(w, j) ensures OnlyExit(x.orders, j, w.exits[j]) {
      if j == i {
        ClosedNeverRests(w.x.orders, o, j, w.exits[j]);
      } else {
        OnlyExitAppend(w.x.orders, o, j, w.exits[j]);
      }
    }
    assert w.settled + w.queue + [e] == w.settled + (w.queue + [e]);
  }

  /** The forced trade itself: one order, complete at once, and one event. */
  lemma ForcedTrade(cfg: Config, w: World, i: Instrument) returns (x: ExchangeState, e: Event)
    requires w.fault.None? && w.book.Net(i) != 0 && Closable(cfg, w.book, i)
    requires OwnerOf(cfg, w.book, i).Ok? && OwnerOf(cfg, w.book, i).value != "" && i != ""
    ensures ForceClose(cfg, w, i) == Push(w.(x := x), [e])
    ensures |x.orders| == |w.x.orders| + 1 && x.orders == w.x.orders + [x.orders[|w.x.orders|]]
    ensures var o, net := x.orders[|w.x.orders|], w.book.Net(i);
            && x == ExchangeState(x.orders, w.x.tags + {o.request.tag}, w.x.fills + 1)
            && o.Consistent() && o.status.FILLED? && o.acceptedAt == w.now && o.armedAt.None?
            && o.request.instrument == i && o.request.tag == SquareOffTag(w.x.fills + 1) && o.SignedFilled() == -net
            && e.fill.Some? && e.fill.value.reason.FORCED_SQUARE_OFF? && Bookable(e.fill.value)
            && e.fill.value.instrument == i && e.fill.value.Signed() == o.SignedFilled()
            && e.orderId == |w.x.orders| && e.fill.value.quantity == o.filled && Says(e.update, o)
            && e.fill.value.price * o.filled as real == o.turnover && e.fill.value.sequence == w.x.fills + 1
            && e.update.ts == w.now
  {
    hide ForcedPrice;
    var net, run := w.book.Net(i), OwnerOf(cfg, w.book, i).value;
    var side := if net > 0 then SELL else BUY;
    var price := ForcedPrice(cfg, side, w.book.marks[i]);
    var traded := SquareOff(w.x, i, side, Abs(net), price, run, w.now).value;
    x, e := traded.0, traded.1;
  }

  lemma OneUnmatched(orders: seq<Order>, e: Event)
    requires e.fill.Some? ==> !e.fill.value.reason.MATCHED?
    ensures FillsWithinLimits(orders, [e])
  {
  }

  lemma ClosedNeverRests(orders: seq<Order>, o: Order, i: Instrument, exit: nat)
    requires !o.IsOpen()
    ensures !Rests(orders, i) ==> !Rests(orders + [o], i) && OnlyExit(orders + [o], i, exit)
  {
    if !Rests(orders, i) {
      NoneRests(orders + [o], i, exit);
    }
  }

  lemma MarkKnown(cfg: Config, w: World, i: Instrument)
    requires Inv(cfg, w) && w.book.Net(i) != 0
    ensures i in w.book.marks
  {
  }

  lemma {:induction false} ForceAllKeeps(cfg: Config, w: World, names: seq<Instrument>)
    requires cfg.Valid() && Inv(cfg, w)
    requires forall k :: 0 <= k < |names| ==> w.book.Net(names[k]) != 0
    requires forall j, k :: 0 <= j < k < |names| ==> names[j] != names[k]
    requires w.fault.None? ==> forall i :: Blocked(w, i) ==> !Rests(w.x.orders, i)
    ensures var w' := ForceAll(cfg, w, names);
            && Inv(cfg, w') && w'.book == w.book && Steady(w, w')
            && (w.fault.None? ==>
                  && (w'.fault.None? <==> forall k :: 0 <= k < |names| ==> Closable(cfg, w.book, names[k]))
                  && (w'.fault.Some? ==> ForcedStop(w')))
            && (w'.fault.None? ==>
                  forall i :: LedgerNet(w'.x.orders, i)
                           == LedgerNet(w.x.orders, i) - if i in names then w.book.Net(i) else 0)
    decreases names
  {
    hide Inv, LedgerNet, ForceClose, Closable, Rests;
    if names != [] && w.fault.None? {
      var i := names[0];
      ForceKeeps(cfg, w, i);
      var w1 := ForceClose(cfg, w, i);
      if w1.fault.None? {
        ForceAllKeeps(cfg, w1, names[1..]);
        assert names == [i] + names[1..];
      } else {
        Halted(cfg, w1, names[1..]);
      }
    }
  }

  lemma Halted(cfg: Config, w: World, names: seq<Instrument>)
    requires w.fault.Some?
    ensures ForceAll(cfg, w, names) == w
  {
  }

  ghost predicate Flat(w: World) {
    forall i :: w.book.Net(i) == 0 && LedgerNet(w.x.orders, i) == 0
  }

  ghost predicate NothingRests(w: World) {
    forall k :: 0 <= k < |w.x.orders| ==> !w.x.orders[k].IsOpen()
  }

  /** The day's orders have expired and the answers are in: the state the broker closes. */
  function Expired(cfg: Config, w: World): World { Settle(cfg, ExpireAll(Settle(cfg, w))) }

  lemma ExpiredKeeps(cfg: Config, w: World)
    requires cfg.Valid() && Inv(cfg, w)
    ensures Inv(cfg, Settle(cfg, w)) && Inv(cfg, ExpireAll(Settle(cfg, w)))
    ensures var w' := Expired(cfg, w);
            && Inv(cfg, w') && Quiet(w.(listening := true), w'.(listening := true))
            && w'.listening == w.listening
            && (w'.fault.None? ==>
                  && w'.queue == []
                  && (forall i :: Blocked(w, i) ==> !Rests(w'.x.orders, i))
                  && (!w.listening ==> NothingRests(w')))
            && (!w.listening ==> w'.fault == w.fault)
            && (NoFills(w.queue) ==> w'.book == w.book)
  {
    hide Inv, LedgerNet, Settle, ExpireAll, NoFills;
    SettleKeeps(cfg, w);
    var answered := Settle(cfg, w);
    ExpireKeeps(cfg, answered);
    if answered.fault.None? {
      NoFillsEmpty(answered);
      SettleKeeps(cfg, ExpireAll(answered));
    } else {
      Stays(cfg, answered);
    }
  }

  lemma Stays(cfg: Config, w: World)
    requires w.fault.Some?
    ensures ExpireAll(w) == w && Settle(cfg, w) == w
  {
  }

  lemma NoFillsEmpty(w: World)
    requires w.queue == []
    ensures NoFills(w.queue)
  {
  }

  /** Every day ends flat, whatever the strategy did, unless the run is stopped first. A forced trade
      stops it exactly when expiry was answered and some position has no forced price; anything else
      that stops it is an answer no order can be built from, and a silent receiver gives none. */
  lemma SessionEndsFlat(cfg: Config, w: World)
    requires cfg.Valid() && Inv(cfg, w) && w.fault.None?
    ensures var w' := SessionEnding(cfg, w);
            var e := Expired(cfg, w);
            && Inv(cfg, w') && Steady(w, w')
            && (ForcedStop(w') <==> e.fault.None? && exists i :: e.book.Net(i) != 0 && !Closable(cfg, e.book, i))
            && (!w.listening ==> (w'.fault.None? <==> forall i :: e.book.Net(i) != 0 ==> Closable(cfg, e.book, i)))
            && (w'.fault.None? ==>
                  && w'.queue == [] && Flat(w') && OwnedShrink(w, w')
                  && w'.book.curve == w.book.curve && w'.book.startingCash == w.book.startingCash)
    ensures NoFills(w.queue) ==> Expired(cfg, w).book == w.book
  {
    hide Inv, LedgerNet, Settle, ExpireAll, ForceAll, Closable, Rests, Expired, NothingRests, Open;
    ExpiredKeeps(cfg, w);
    var e := Expired(cfg, w);
    ExpiryIsNotForced(cfg, w);
    EndingIs(cfg, w);
    if e.fault.None? {
      ForcedPart(cfg, e);
    }
  }

  /** From the moment the day's orders have expired. */
  lemma ForcedPart(cfg: Config, e: World)
    requires cfg.Valid() && Inv(cfg, e) && e.fault.None? && e.queue == []
    requires forall i :: Blocked(e, i) ==> !Rests(e.x.orders, i)
    ensures var w' := Settle(cfg, ForceAll(cfg, e, Open(e.book, e.book.listing)));
            && Inv(cfg, w') && Steady(e, w')
            && (ForcedStop(w') <==> exists i :: e.book.Net(i) != 0 && !Closable(cfg, e.book, i))
            && (!e.listening ==> (w'.fault.None? <==> forall i :: e.book.Net(i) != 0 ==> Closable(cfg, e.book, i)))
            && (w'.fault.None? ==>
                  && w'.queue == [] && Flat(w')
                  && w'.book.curve == e.book.curve && w'.book.startingCash == e.book.startingCash)
  {
    hide Inv, LedgerNet, Settle, ForceAll, Closable, Rests, Open;
    var names := Open(e.book, e.book.listing);
    OpenNames(cfg, e);
    forall i ensures e.book.Net(i) == LedgerNet(e.x.orders, i) {
      BookAgrees(cfg, e, i);
    }
    ForceAllKeeps(cfg, e, names);
    var forced := ForceAll(cfg, e, names);
    SettleKeeps(cfg, forced);
    AnswersAreNotForced(cfg, forced);
    if forced.fault.Some? {
      Stays(cfg, forced);
    }
    var w' := Settle(cfg, forced);
    if w'.fault.None? {
      forall i ensures w'.book.Net(i) == 0 && LedgerNet(w'.x.orders, i) == 0 {
        BookAgrees(cfg, w', i);
      }
    }
  }

  /** Settling never makes a forced trade. */
  lemma {:induction false} AnswersAreNotForced(cfg: Config, w: World)
    ensures w.fault.None? ==> !ForcedStop(Settle(cfg, w))
    decreases Budget(w)
  {
    hide SubmitAll, Apply, TallyOf, Budget;
    if w.queue != [] && w.fault.None? {
      SettleBudget(cfg, w);
      var popped := PopAndBook(cfg, w);
      if w.listening && w.script != [] {
        AnswerIsNotForced(cfg, popped.(script := popped.script[1..]), popped.script[0]);
      }
      AnswersAreNotForced(cfg, Hear(cfg, popped));
    }
  }

  lemma {:induction false} AnswerIsNotForced(cfg: Config, w: World, signals: seq<Signal>)
    ensures w.fault.None? ==> !ForcedStop(SubmitAll(cfg, w, signals))
    decreases signals
  {
    if signals != [] && w.fault.None? {
      AnswerIsNotForced(cfg, SubmitSignal(cfg, w, signals[0]), signals[1..]);
    }
  }

  lemma ExpiryIsNotForced(cfg: Config, w: World)
    requires w.fault.None?
    ensures !ForcedStop(Expired(cfg, w))
  {
    hide Settle;
    AnswersAreNotForced(cfg, w);
    var answered := Settle(cfg, w);
    if answered.fault.None? {
      AnswersAreNotForced(cfg, ExpireAll(answered));
    } else {
      Stays(cfg, answered);
    }
  }

  lemma EndingIs(cfg: Config, w: World)
    ensures var e := Expired(cfg, w);
            && SessionEnding(cfg, w) == Settle(cfg, ForceAll(cfg, e, Open(e.book, e.book.listing)))
            && (e.fault.Some? ==> SessionEnding(cfg, w) == e)
  {
    hide Settle, ExpireAll, Open;
    var e := Expired(cfg, w);
    if e.fault.Some? {
      Stays(cfg, e);
    }
  }

  lemma OpenNames(cfg: Config, w: World)
    requires Inv(cfg, w)
    ensures var names := Open(w.book, w.book.listing);
            && (forall i :: i in names <==> w.book.Net(i) != 0)
            && (forall k :: 0 <= k < |names| ==> w.book.Net(names[k]) != 0)
            && (forall j, k :: 0 <= j < k < |names| ==> names[j] != names[k])
  {
    OpenExactly(w.book, w.book.listing);
    var names := Open(w.book, w.book.listing);
    assert forall k :: 0 <= k < |names| ==> names[k] in names;
  }
}
