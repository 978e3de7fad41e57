/** The equity curve of a whole run, told by its fills and its bars alone. */
module Valuation {
  import opened Basics
  import opened Market
  import opened FillModel
  import opened Exchange
  import opened Ledger
  import opened Netting
  import opened Simulation
  import opened Lookahead
  import opened ExitOnly
  import opened Safety
  import opened SessionSafety
  import opened RunSafety
  import opened BarTrades
  import opened ClosingTrades

  // ---- the last close of an instrument ---------------------------------------------------

  function LastClose(bars: seq<Candle>, i: Instrument): real {
    if bars == [] then 0.0
    else
      var last := bars[|bars| - 1];
      if last.instrument == i then last.close else LastClose(bars[..|bars| - 1], i)
  }

  function Closes(bars: seq<Candle>): Instrument -> real { i => LastClose(bars, i) }

  lemma OneMoreBar(bars: seq<Candle>, bar: Candle, i: Instrument)
    ensures LastClose(bars + [bar], i) == if bar.instrument == i then bar.close else LastClose(bars, i)
  {
    assert (bars + [bar])[..|bars|] == bars;
  }

  /** What is held is marked at its last close. */
  ghost predicate Fresh(w: World) { MarkedAt(w.book, Closes(w.bars)) }

  // ---- where the fills of a bar go -------------------------------------------------------

  ghost predicate FillsOnly(events: seq<Event>, i: Instrument) {
    forall k :: 0 <= k < |events| && events[k].fill.Some? ==> events[k].fill.value.instrument == i
  }

  /** These fills were all made at one instant; these, none later than it. */
  ghost predicate FillsAt(events: seq<Event>, ts: int) {
    forall k :: 0 <= k < |events| && events[k].fill.Some? ==> events[k].fill.value.ts == ts
  }

  ghost predicate FillsBy(events: seq<Event>, ts: int) {
    forall k :: 0 <= k < |events| && events[k].fill.Some? ==> events[k].fill.value.ts <= ts
  }

  /** More was delivered, every fill of it made at this instant. */
  ghost predicate Delivers(w: World, w': World, ts: int) {
    && w.settled <= w'.settled && FillsAt(w'.settled[|w.settled|..], ts)
  }

  lemma DeliversOn(w: World, w1: World, w2: World, ts: int)
    requires Delivers(w, w1, ts) && Delivers(w1, w2, ts)
    ensures Delivers(w, w2, ts)
  {
    assert w2.settled[|w.settled|..] == w1.settled[|w.settled|..] + w2.settled[|w1.settled|..];
  }

  /** Nothing but events without fills has joined the queue, and nothing was delivered or marked. */
  ghost predicate OnlyAnswered(w: World, w': World) {
    && w.queue <= w'.queue && NoFills(w'.queue[|w.queue|..])
    && w'.book == w.book && w'.settled == w.settled && w'.bars == w.bars
  }

  lemma RouteAnswers(cfg: Config, w: World, s: Signal)
    ensures OnlyAnswered(w, Route(cfg, w, s))
  {
  }

  lemma SubmitAnswers(cfg: Config, w: World, s: Signal)
    ensures OnlyAnswered(w, SubmitSignal(cfg, w, s))
  {
    hide Route;
    RouteAnswers(cfg, w.(counters := w.counters.(signals := w.counters.signals + 1)), s);
  }

  lemma {:induction false} AnswersQueue(cfg: Config, w: World, signals: seq<Signal>)
    ensures OnlyAnswered(w, SubmitAll(cfg, w, signals))
    decreases signals
  {
    hide SubmitSignal;
    if signals != [] && w.fault.None? {
      var w1 := SubmitSignal(cfg, w, signals[0]);
      SubmitAnswers(cfg, w, signals[0]);
      AnswersQueue(cfg, w1, signals[1..]);
      var w' := SubmitAll(cfg, w, signals);
      assert w'.queue[|w.queue|..] == w1.queue[|w.queue|..] + w'.queue[|w1.queue|..];
    }
  }

  lemma ReplyQueues(cfg: Config, w: World)
    ensures OnlyAnswered(w, Reply(cfg, w))
  {
    hide SubmitAll;
    if w.script != [] && w.fault.None? {
      AnswersQueue(cfg, w.(script := w.script[1..]), w.script[0]);
    }
  }

  lemma MoreAnswers(queue: seq<Event>, queue': seq<Event>, i: Instrument)
    requires FillsOnly(queue, i) && queue <= queue' && NoFills(queue'[|queue|..])
    ensures FillsOnly(queue', i)
  {
    assert queue' == queue + queue'[|queue|..];
  }

  lemma LaterAnswers(queue: seq<Event>, queue': seq<Event>, ts: int)
    requires FillsAt(queue, ts) && queue <= queue' && NoFills(queue'[|queue|..])
    ensures FillsAt(queue', ts)
  {
    assert queue' == queue + queue'[|queue|..];
  }

  /** Settling fills in one instrument leaves the positions and marks of the others alone. */
  lemma {:induction false} SettleElsewhere(cfg: Config, w: World, i: Instrument)
    requires FillsOnly(w.queue, i)
    ensures var w' := Settle(cfg, w);
            forall j :: j != i ==>
                 && w'.book.Held(j) == w.book.Held(j) && (j in w'.book.marks <==> j in w.book.marks)
                 && (j in w.book.marks ==> w'.book.marks[j] == w.book.marks[j])
    decreases Budget(w)
  {
    hide SubmitAll, Booked, Track, TallyOf, Budget, Reply;
    if w.queue != [] && w.fault.None? {
      SettleBudget(cfg, w);
      var popped := PopAndBook(cfg, w);
      ReplyQueues(cfg, popped);
      var heard := Hear(cfg, popped);
      MoreAnswers(popped.queue, heard.queue, i);
      SettleElsewhere(cfg, heard, i);
    }
  }

  /** Settling delivers the fills that were queued, and no others. */
  lemma {:induction false} SettleDelivers(cfg: Config, w: World, ts: int)
    requires FillsAt(w.queue, ts)
    ensures Delivers(w, Settle(cfg, w), ts) && Settle(cfg, w).bars == w.bars
    decreases Budget(w)
  {
    hide SubmitAll, Apply, TallyOf, Budget, Reply;
    if w.queue != [] && w.fault.None? {
      SettleBudget(cfg, w);
      var popped := PopAndBook(cfg, w);
      ReplyQueues(cfg, popped);
      var heard := Hear(cfg, popped);
      LaterAnswers(popped.queue, heard.queue, ts);
      SettleDelivers(cfg, heard, ts);
      assert heard.settled[|w.settled|..] == [w.queue[0]];
      assert Delivers(w, heard, ts);
      DeliversOn(w, heard, Settle(cfg, heard), ts);
    }
  }

  lemma NoFillsAt(events: seq<Event>, ts: int)
    requires NoFills(events)
    ensures FillsAt(events, ts)
  {
  }

  lemma {:induction false} CancelsQueue(w: World, ids: seq<nat>)
    ensures OnlyAnswered(w, CancelAll(w, ids))
    decreases ids
  {
    if ids != [] && w.fault.None? {
      var c := Cancel(w.x, ids[0], w.now);
      if c.Ok? {
        var w1 := Push(w.(x := c.value.0), [c.value.1]);
        CancelsQueue(w1, ids[1..]);
        var w' := CancelAll(w, ids);
        assert w'.queue[|w.queue|..] == [c.value.1] + w'.queue[|w1.queue|..];
      }
    }
  }

  /** Square-off delivers no fill. */
  lemma SquareOffQueues(cfg: Config, w: World, bar: Candle, ts: int)
    requires cfg.Valid() && Inv(cfg, w) && w.fault.None? && w.queue == [] && w.now == bar.ClosesAt()
    ensures var w' := SquareOffIfDue(cfg, w, bar); w'.book == w.book && Delivers(w, w', ts) && w'.bars == w.bars
  {
    hide Inv, Settle, CancelAll, Resting, Delivers, Route, NoFills, SquareOffIfDue, SubmitSystem;
    var exit := SquareOffSends(cfg, w, bar);
    if TimeToLeave(cfg, w, bar) {
      NothingDelivered(Planned(w, bar), SquareOffIfDue(cfg, w, bar), ts);
      if bar.close > 0.0 {
        ExitFate(cfg, w, bar);
        ExitQueued(cfg, w, bar, exit);
        var sent := SubmitSystem(cfg, Cleared(w, bar), exit);
        SettleKeeps(cfg, sent);
        NoFillsAt(sent.queue, ts);
        SettleDelivers(cfg, sent, ts);
        FromSent(w, sent, Settle(cfg, sent), ts);
      } else {
        ClosedForNothing(cfg, w, bar, ts);
      }
    } else {
      NothingDelivered(w, w, ts);
    }
  }

  lemma NothingDelivered(w: World, w': World, ts: int)
    ensures w'.settled == w.settled ==> Delivers(w, w', ts)
  {
  }

  lemma FromSent(w: World, sent: World, w': World, ts: int)
    requires sent.settled == w.settled && Delivers(sent, w', ts)
    ensures Delivers(w, w', ts)
  {
  }

  lemma ClosedForNothing(cfg: Config, w: World, bar: Candle, ts: int)
    requires cfg.Valid() && Inv(cfg, w) && w.fault.None? && w.queue == [] && w.now == bar.ClosesAt()
    requires TimeToLeave(cfg, w, bar) && bar.close <= 0.0
    ensures var w' := SquareOffIfDue(cfg, w, bar); w'.book == w.book && Delivers(w, w', ts) && w'.bars == w.bars
  {
    hide Inv, Settle, CancelAll, Resting, SubmitSystem;
    ExitFate(cfg, w, bar);
  }

  /** Cancelling and sending the exit puts only events without fills on the empty queue. */
  lemma ExitQueued(cfg: Config, w: World, bar: Candle, exit: Signal)
    requires w.queue == []
    ensures var sent := SubmitSystem(cfg, Cleared(w, bar), exit);
            NoFills(sent.queue) && sent.settled == w.settled && sent.bars == w.bars
  {
    hide CancelAll, Resting, Route;
    var c := Cleared(w, bar);
    CancelsQueue(Planned(w, bar), Resting(w.x.orders, Some(bar.instrument)));
    RouteAnswers(cfg, c.(counters := c.counters.(squareOffSignals := c.counters.squareOffSignals + 1)), exit);
    var sent := SubmitSystem(cfg, c, exit);
    assert c.queue == c.queue[0..];
    assert sent.queue == c.queue + sent.queue[|c.queue|..];
  }

  // ---- one bar ---------------------------------------------------------------------------

  /** A bar's trades are all in its own instrument, and made now. */
  lemma MatchesHere(cfg: Config, w: World, bar: Candle)
    requires w.fault.None? && w.queue == []
    ensures FillsOnly(MatchBar(cfg, w, bar).queue, bar.instrument) && FillsAt(MatchBar(cfg, w, bar).queue, w.now)
  {
    hide MatchUpTo, Executions, BarFillModel.Capacity;
    var capacity, n := cfg.model.Capacity(bar), |w.x.orders|;
    var m := Match(w.x, bar, w.now, cfg.model);
    forall k | 0 <= k < |m.events|
      ensures m.events[k].fill.Some? ==>
                m.events[k].fill.value.instrument == bar.instrument && m.events[k].fill.value.ts == w.now
    {
      TermsOf(w.x, bar, w.now, cfg.model, capacity, n, k);
    }
  }

  /** From the bar's trades to its mark: the bar's instrument is marked at its close, the others as before. */
  lemma TradedFresh(cfg: Config, w: World, bar: Candle)
    requires w.fault.None? && w.queue == [] && Fresh(w)
    ensures var w' := Marked(Settle(cfg, MatchBar(cfg, w, bar)), bar);
            && Delivers(w, w', w.now)
            && (w'.fault.None? ==> Fresh(w') && w'.bars == w.bars + [bar])
  {
    hide Settle, MatchBar, LastClose, FillsOnly, FillsAt;
    MatchesHere(cfg, w, bar);
    MatchBarFrame(cfg, w, bar);
    MatchDelivers(cfg, w, bar);
    var matched := MatchBar(cfg, w, bar);
    SettleElsewhere(cfg, matched, bar.instrument);
    SettleDelivers(cfg, matched, w.now);
    var w' := Marked(Settle(cfg, matched), bar);
    if w'.fault.None? {
      forall i | w'.book.Net(i) != 0
        ensures i in w'.book.marks && w'.book.marks[i] == LastClose(w'.bars, i)
      {
        OneMoreBar(w.bars, bar, i);
        if i != bar.instrument {
          assert w.book.Net(i) != 0;
        }
      }
    }
  }

  lemma MatchDelivers(cfg: Config, w: World, bar: Candle)
    ensures MatchBar(cfg, w, bar).settled == w.settled
  {
  }

  /** Around a bar: what is held stays marked at its last close, and all fills delivered are of now. */
  lemma BarFresh(cfg: Config, w: World, bar: Candle)
    requires cfg.Valid() && Inv(cfg, w) && w.fault.None? && w.now == bar.ClosesAt() && NoFills(w.queue) && Fresh(w)
    ensures var w' := BeforeBar(cfg, w, bar);
            w'.fault.None? ==> Fresh(w') && Delivers(w, w', w.now) && w'.bars == w.bars + [bar]
  {
    hide Inv, Settle, MatchBar, Marked, SquareOffIfDue, Recorded, NoFills, Fresh, Delivers;
    BarStages(cfg, w, bar);
    RecordedFresh(w, bar);
    var recorded := Recorded(w, bar);
    SettleKeeps(cfg, recorded);
    NoFillsAt(recorded.queue, w.now);
    SettleDelivers(cfg, recorded, w.now);
    var answered := Settle(cfg, recorded);
    SameFresh(recorded, answered);
    FromSent(w, recorded, answered, w.now);
    var marked := Marked(Settle(cfg, MatchBar(cfg, answered, bar)), bar);
    if answered.fault.Some? {
      FrozenBar(cfg, answered, bar);
    } else if marked.fault.Some? {
      Frozen(cfg, marked, bar);
    } else {
      TradedFresh(cfg, answered, bar);
      SquareOffQueues(cfg, marked, bar, w.now);
      SameFresh(marked, SquareOffIfDue(cfg, marked, bar));
      DeliversOn(w, answered, marked, w.now);
      DeliversOn(w, marked, SquareOffIfDue(cfg, marked, bar), w.now);
    }
  }

  lemma FrozenBar(cfg: Config, w: World, bar: Candle)
    requires w.fault.Some?
    ensures SquareOffIfDue(cfg, Marked(Settle(cfg, MatchBar(cfg, w, bar)), bar), bar) == w
  {
  }

  lemma SameFresh(w: World, w': World)
    ensures w'.book == w.book && w'.bars == w.bars ==> (Fresh(w') <==> Fresh(w))
  {
  }

  lemma RecordedFresh(w: World, bar: Candle)
    requires Fresh(w)
    ensures var r := Recorded(w, bar);
            Fresh(r) && r.bars == w.bars && r.settled == w.settled && r.queue == w.queue && r.now == w.now
  {
    hide Equity, LastClose;
    var r := Recorded(w, bar);
    assert forall i :: r.book.Net(i) == w.book.Net(i);
  }

  // ---- the equity curve ------------------------------------------------------------------

  /** A point of the curve: recorded after some of the run's bars, the last of which closed at that very
      instant and the next, if there is one, later; and it says what the fills made by then, and no later
      ones, come to at those bars' closes. */
  ghost predicate Told(cfg: Config, w: World, point: EquityPoint, seen: nat, delivered: nat) {
    && 0 < seen <= |w.bars| && delivered <= |w.settled|
    && point.ts == w.bars[seen - 1].ClosesAt() && (seen < |w.bars| ==> w.bars[seen].ClosesAt() > point.ts)
    && (forall k :: 0 <= k < |w.settled| && w.settled[k].fill.Some? ==>
          (k < delivered <==> w.settled[k].fill.value.ts <= point.ts))
    && PointTold(w.book.startingCash, BookingsOf(cfg, w.settled[..delivered]), Closes(w.bars[..seen]), point)
  }

  ghost predicate CurveTold(cfg: Config, w: World) {
    forall point :: point in w.book.curve ==> exists seen, delivered :: Told(cfg, w, point, seen, delivered)
  }

  /** Every bar's close has its point, or the next point to be recorded is its. */
  ghost predicate CurveWhole(w: World) {
    forall bar :: bar in w.bars ==>
      w.pending == Some(bar.ClosesAt()) || exists point :: point in w.book.curve && point.ts == bar.ClosesAt()
  }

  lemma StaysTold(
    cfg: Config, w: World, w': World, point: EquityPoint, seen: nat, delivered: nat, ts: int)
    requires Told(cfg, w, point, seen, delivered)
    requires w.bars <= w'.bars && Delivers(w, w', ts) && w'.book.startingCash == w.book.startingCash
    requires |w.bars| < |w'.bars| ==> w'.bars[|w.bars|].ClosesAt() > point.ts
    requires ts > point.ts || w'.settled == w.settled
    ensures Told(cfg, w', point, seen, delivered)
  {
    hide PointTold, BookingsOf;
    assert w'.bars[..seen] == w.bars[..seen] && w'.settled[..delivered] == w.settled[..delivered];
    assert w'.settled == w.settled + w'.settled[|w.settled|..];
  }

  /** The point recorded now is told by all there is so far. */
  lemma NewPointTold(cfg: Config, w: World)
    requires Inv(cfg, w) && w.pending.Some? && w.fault.None? && Fresh(w) && FillsBy(w.settled, w.pending.value)
    requires w.bars != [] && w.bars[|w.bars| - 1].ClosesAt() == w.pending.value
    ensures var w' := RecordPending(w);
            && w'.book.curve[..|w.book.curve|] == w.book.curve && |w'.book.curve| == |w.book.curve| + 1
            && Told(cfg, w', w'.book.curve[|w.book.curve|], |w.bars|, |w.settled|)
  {
    hide BookOk, PointTold, RecordPoint, MarkedAt;
    RecordedIsTold(w.book, BookingsOf(cfg, w.settled), Closes(w.bars), w.pending.value);
    assert w.bars[..|w.bars|] == w.bars && w.settled[..|w.settled|] == w.settled;
  }

  /** No new bar, no new point; perhaps more was delivered, later than every point. */
  lemma StillTold(cfg: Config, w: World, w': World, ts: int)
    requires w'.book.curve == w.book.curve && w'.book.startingCash == w.book.startingCash && w'.bars == w.bars
    requires Delivers(w, w', ts) && w'.pending == w.pending
    requires w'.settled == w.settled || forall point :: point in w.book.curve ==> point.ts < ts
    ensures CurveTold(cfg, w) ==> CurveTold(cfg, w')
    ensures CurveWhole(w) ==> CurveWhole(w')
  {
    hide Told, Delivers;
    if CurveTold(cfg, w) {
      forall point | point in w'.book.curve ensures exists seen, delivered :: Told(cfg, w', point, seen, delivered) {
        var seen, delivered :| Told(cfg, w, point, seen, delivered);
        StaysTold(cfg, w, w', point, seen, delivered, ts);
      }
    }
  }

  /** The pending point is recorded: the curve is told to the end. */
  lemma RecordTold(cfg: Config, w: World)
    requires Inv(cfg, w) && w.pending.Some? && w.fault.None? && Fresh(w) && FillsBy(w.settled, w.pending.value)
    requires w.bars != [] && w.bars[|w.bars| - 1].ClosesAt() == w.pending.value
    requires CurveTold(cfg, w) && CurveWhole(w)
    ensures var w' := RecordPending(w);
            && CurveTold(cfg, w')
            && forall bar :: bar in w'.bars ==> exists point :: point in w'.book.curve && point.ts == bar.ClosesAt()
  {
    hide Inv, Told, Fresh, FillsBy, Delivers;
    NewPointTold(cfg, w);
    PointDated(w);
    var w' := RecordPending(w);
    var n := |w.book.curve|;
    NothingDelivered(w, w', 0);
    assert w'.book.curve == w'.book.curve[..n] + [w'.book.curve[n]];
    forall point | point in w'.book.curve ensures exists seen, delivered :: Told(cfg, w', point, seen, delivered) {
      if point in w.book.curve {
        var seen, delivered :| Told(cfg, w, point, seen, delivered);
        StaysTold(cfg, w, w', point, seen, delivered, 0);
      }
    }
    forall bar | bar in w'.bars ensures exists point :: point in w'.book.curve && point.ts == bar.ClosesAt() {
      if w.pending == Some(bar.ClosesAt()) {
        assert w'.book.curve[n] in w'.book.curve;
      }
    }
  }

  lemma PointDated(w: World)
    requires w.pending.Some? && w.fault.None?
    ensures var w' := RecordPending(w);
            && w'.bars == w.bars && w'.settled == w.settled && w'.book.startingCash == w.book.startingCash
            && w'.pending == None && w'.now == w.now && |w'.book.curve| == |w.book.curve| + 1
            && w'.book.curve == w.book.curve + [w'.book.curve[|w.book.curve|]]
            && w'.book.curve[|w.book.curve|].ts == w.pending.value
  {
    hide Equity;
  }

  // ---- a whole bar -----------------------------------------------------------------------

  /** What a run's curve promises between two bars. */
  ghost predicate ToldSoFar(cfg: Config, w: World) {
    && Fresh(w) && CurveTold(cfg, w) && CurveWhole(w) && FillsBy(w.settled, w.now)
    && (w.pending.Some? ==>
          && w.bars != [] && w.bars[|w.bars| - 1].ClosesAt() == w.pending.value
          && FillsBy(w.settled, w.pending.value))
  }

  /** The next bar's clock and the point of an earlier moment. */
  lemma RecordedTold(cfg: Config, w: World, bar: Candle)
    requires Inv(cfg, w) && w.fault.None? && CurveOk(w) && ToldSoFar(cfg, w)
    requires w.now == bar.ClosesAt()
    requires w.pending.None? ==> forall point :: point in w.book.curve ==> point.ts < bar.ClosesAt()
    ensures var r := Recorded(w, bar);
            && CurveTold(cfg, r) && (forall point :: point in r.book.curve ==> point.ts < bar.ClosesAt())
            && (forall b :: b in r.bars ==>
                  b.ClosesAt() == bar.ClosesAt() || exists point :: point in r.book.curve && point.ts == b.ClosesAt())
  {
    hide Inv, Fresh, CurveTold, FillsBy;
    if w.pending.Some? && bar.ClosesAt() > w.pending.value {
      RecordTold(cfg, w);
      PointDated(w);
    }
  }

  lemma EarlierPoints(w: World, bar: Candle)
    requires CurveOk(w) && w.now <= bar.ClosesAt() && FillsBy(w.settled, w.now)
    requires w.pending.None? ==> w.now < bar.ClosesAt() || w.book.curve == []
    ensures w.pending.None? ==> forall point :: point in w.book.curve ==> point.ts < bar.ClosesAt()
    ensures CurveOk(w.(now := bar.ClosesAt())) && FillsBy(w.settled, bar.ClosesAt())
  {
    hide Equity;
  }

  /** A whole bar, clock and strategy included. */
  lemma HandleTold(cfg: Config, w: World, bar: Candle)
    requires cfg.Valid() && Inv(cfg, w) && w.fault.None? && CurveOk(w) && NoFills(w.queue) && ToldSoFar(cfg, w)
    requires bar.Valid() && w.now <= bar.ClosesAt()
    requires w.pending.None? ==> w.now < bar.ClosesAt() || w.book.curve == []
    ensures var w' := HandleBar(cfg, w, bar);
            w'.fault.None? ==> ToldSoFar(cfg, w') && w'.book.startingCash == w.book.startingCash
  {
    hide Inv, BeforeBar, Reply, Fresh, CurveTold, CurveWhole, CurveOk, NoFills, OwnedShrink, Shrinks, SameExits,
         FillsBy, Delivers;
    EarlierPoints(w, bar);
    LaterKeeps(cfg, w, bar.ClosesAt());
    var synced := w.(now := bar.ClosesAt());
    SameTold(cfg, w, synced);
    RecordedTold(cfg, synced, bar);
    BarKeeps(cfg, synced, bar);
    BarFresh(cfg, synced, bar);
    var acted := BeforeBar(cfg, synced, bar);
    if acted.fault.None? {
      RecordedSame(synced, bar);
      FromSent(Recorded(synced, bar), synced, acted, bar.ClosesAt());
      BarTold(cfg, Recorded(synced, bar), acted, bar);
      FilledBy(synced, acted, bar.ClosesAt());
      NoFillsEmpty(acted);
      ReplyKeeps(cfg, acted);
      ReplyQueues(cfg, acted);
      SameTold(cfg, acted, HandleBar(cfg, w, bar));
    } else {
      NoReply(cfg, acted);
    }
  }

  lemma FilledBy(w: World, w': World, ts: int)
    requires FillsBy(w.settled, ts) && Delivers(w, w', ts)
    ensures FillsBy(w'.settled, ts)
  {
    assert w'.settled == w.settled + w'.settled[|w.settled|..];
  }

  /** ToldSoFar is about the book, the bars and what was delivered only. */
  lemma SameTold(cfg: Config, w: World, w': World)
    requires w'.book == w.book && w'.bars == w.bars && w.settled == w'.settled && w'.pending == w.pending
    requires ToldSoFar(cfg, w) && w.now <= w'.now
    ensures ToldSoFar(cfg, w')
  {
    hide Fresh, CurveTold, CurveWhole, Delivers;
    SameFresh(w, w');
    NothingDelivered(w, w', 0);
    StillTold(cfg, w, w', 0);
  }

  lemma RecordedSame(w: World, bar: Candle)
    ensures var r := Recorded(w, bar);
            r.bars == w.bars && r.settled == w.settled && r.book.startingCash == w.book.startingCash
  {
    hide Equity;
  }

  lemma BarTold(cfg: Config, r: World, w': World, bar: Candle)
    requires CurveTold(cfg, r) && (forall point :: point in r.book.curve ==> point.ts < bar.ClosesAt())
    requires forall b :: b in r.bars ==>
               b.ClosesAt() == bar.ClosesAt() || exists point :: point in r.book.curve && point.ts == b.ClosesAt()
    requires w'.book.curve == r.book.curve && w'.book.startingCash == r.book.startingCash
    requires w'.bars == r.bars + [bar] && Delivers(r, w', bar.ClosesAt()) && w'.pending == Some(bar.ClosesAt())
    ensures CurveTold(cfg, w') && CurveWhole(w')
  {
    hide Told, Delivers;
    forall point | point in w'.book.curve ensures exists seen, delivered :: Told(cfg, w', point, seen, delivered) {
      var seen, delivered :| Told(cfg, r, point, seen, delivered);
      StaysTold(cfg, r, w', point, seen, delivered, bar.ClosesAt());
    }
  }

  // ---- the end of a day ------------------------------------------------------------------

  /** Forced trades are queued, not delivered, and made now. */
  lemma {:induction false} ForceQueues(cfg: Config, w: World, names: seq<Instrument>)
    requires FillsAt(w.queue, w.now)
    ensures var w' := ForceAll(cfg, w, names);
            w'.settled == w.settled && w'.bars == w.bars && FillsAt(w'.queue, w.now)
    decreases names
  {
    hide ForceClose;
    if names != [] && w.fault.None? {
      ForceQueuesOne(cfg, w, names[0]);
      ForceQueues(cfg, ForceClose(cfg, w, names[0]), names[1..]);
    }
  }

  lemma ForceQueuesOne(cfg: Config, w: World, i: Instrument)
    requires FillsAt(w.queue, w.now)
    ensures var w' := ForceClose(cfg, w, i);
            w'.settled == w.settled && w'.bars == w.bars && w'.now == w.now && FillsAt(w'.queue, w.now)
  {
    hide ForcedPrice;
  }

  lemma ExpireDelivers(cfg: Config, w: World, ts: int)
    requires cfg.Valid() && Inv(cfg, w) && NoFills(w.queue)
    ensures Delivers(w, Expired(cfg, w), ts) && Expired(cfg, w).bars == w.bars
  {
    hide Inv, Settle, ExpireAll, NoFills, FillsAt, Delivers;
    NoFillsAt(w.queue, ts);
    SettleDelivers(cfg, w, ts);
    SettleKeeps(cfg, w);
    var answered := Settle(cfg, w);
    if answered.fault.Some? {
      Stays(cfg, answered);
    } else {
      NoFillsEmpty(answered);
      ExpireKeeps(cfg, answered);
      var expired := ExpireAll(answered);
      ExpireSettles(answered);
      NoFillsAt(expired.queue, ts);
      SettleDelivers(cfg, expired, ts);
      FromSent(answered, expired, Settle(cfg, expired), ts);
      DeliversOn(w, answered, Settle(cfg, expired), ts);
    }
  }

  lemma ExpireSettles(w: World)
    ensures ExpireAll(w).settled == w.settled && ExpireAll(w).bars == w.bars
  {
    hide ExpireUpTo;
  }

  lemma EndingDelivers(cfg: Config, w: World)
    requires cfg.Valid() && Inv(cfg, w) && NoFills(w.queue)
    ensures Delivers(w, SessionEnding(cfg, w), w.now) && SessionEnding(cfg, w).bars == w.bars
  {
    hide Inv, Settle, ForceAll, Expired, Open, NoFills, FillsAt, Delivers;
    EndingIs(cfg, w);
    ExpireDelivers(cfg, w, w.now);
    ExpiredKeeps(cfg, w);
    var e := Expired(cfg, w);
    if e.fault.None? {
      NoFillsEmpty(e);
      NoFillsAt(e.queue, w.now);
      var names := Open(e.book, e.book.listing);
      ForceQueues(cfg, e, names);
      var forced := ForceAll(cfg, e, names);
      SettleDelivers(cfg, forced, w.now);
      FromSent(e, forced, Settle(cfg, forced), w.now);
      DeliversOn(w, e, Settle(cfg, forced), w.now);
    }
  }

  lemma FlatIsFresh(w: World)
    requires forall i :: w.book.Net(i) == 0
    ensures Fresh(w)
  {
  }

  /** From a flat world, the session's last step records the day's last point. */
  lemma LastPointTold(cfg: Config, w: World)
    requires cfg.Valid() && Inv(cfg, w) && w.fault.None? && !w.listening && NoFills(w.queue) && Flat(w)
    requires ToldSoFar(cfg, w) && CurveOk(w) && w.pending.Some?
    ensures var w' := SessionClosed(cfg, w);
            ToldSoFar(cfg, w') && w'.pending == None && w'.book.startingCash == w.book.startingCash
  {
    hide Inv, Expired, CurveTold, Told, RecordPending, Fresh, NoFills, NothingRests, ClosedFrom, Delivers, FillsBy;
    ExpiredKeeps(cfg, w);
    ExpireDelivers(cfg, w, w.pending.value);
    ClosedIsExpired(cfg, w);
    var e := Expired(cfg, w);
    FlatIsFresh(e);
    PointsBefore(w);
    StillTold(cfg, w, e, w.pending.value);
    FilledBy(w, e, w.pending.value);
    RecordTold(cfg, e);
    PointDated(e);
    SilentClose(cfg, w);
    var w' := SessionClosed(cfg, w);
    assert w'.book.positions == w.book.positions;
    assert forall i :: w'.book.Net(i) == w.book.Net(i) == 0;
    FlatIsFresh(w');
    LaterBy(e, w.pending.value, w'.now);
  }

  lemma PointsBefore(w: World)
    requires CurveOk(w) && w.pending.Some?
    ensures w.pending.value <= w.now && forall point :: point in w.book.curve ==> point.ts < w.pending.value <= w.now
  {
  }

  lemma LaterBy(w: World, ts: int, later: int)
    requires FillsBy(w.settled, ts) && ts <= later
    ensures FillsBy(w.settled, later)
  {
  }

  lemma EndingTold(cfg: Config, w: World)
    requires cfg.Valid() && Inv(cfg, w) && w.fault.None? && ToldSoFar(cfg, w) && NoFills(w.queue)
    requires CurveOk(w) && w.pending == Some(w.now)
    ensures var e := SessionEnding(cfg, w);
            e.fault.None? ==> && ToldSoFar(cfg, e) && Flat(e) && NoFills(e.queue) && e.pending == Some(e.now)
                              && e.listening == w.listening && Inv(cfg, e) && CurveOk(e)
                              && e.book.startingCash == w.book.startingCash
  {
    hide Inv, SessionEnding, Expired, CurveTold, CurveWhole, NoFills, OwnedShrink, Closable, ForcedStop, Delivers,
         FillsBy;
    SessionEndsFlat(cfg, w);
    EndingDelivers(cfg, w);
    var e := SessionEnding(cfg, w);
    if e.fault.None? {
      FlatIsFresh(e);
      PointsBefore(w);
      StillTold(cfg, w, e, w.now);
      FilledBy(w, e, w.now);
      NoFillsEmpty(e);
    }
  }

  /** A day's end records its last point, whatever its last word. */
  lemma CloseTold(cfg: Config, w: World)
    requires cfg.Valid() && Inv(cfg, w) && w.fault.None? && ToldSoFar(cfg, w) && NoFills(w.queue)
    requires CurveOk(w) && w.pending == Some(w.now)
    ensures var w' := CloseDay(cfg, w);
            w'.fault.None? ==>
              ToldSoFar(cfg, w') && w'.pending == None && w'.book.startingCash == w.book.startingCash
  {
    hide Inv, SessionEnding, SessionClosed, Reply, Fresh, CurveTold, CurveWhole, NoFills, NothingRests, FillsBy;
    EndingTold(cfg, w);
    var ended := SessionEnding(cfg, w);
    if ended.fault.None? {
      ListeningFree(cfg, ended, false);
      var quiet := ended.(listening := false);
      SameTold(cfg, ended, quiet);
      ReplyKeeps(cfg, quiet);
      ReplyQueues(cfg, quiet);
      var last := EndSession(cfg, ended);
      SameTold(cfg, quiet, last);
      if last.fault.None? {
        LastPointTold(cfg, last);
        var closed := SessionClosed(cfg, last);
        SameTold(cfg, closed, BeginSession(closed));
      } else {
        SilentClose(cfg, last);
      }
    } else {
      ClosesNoMore(cfg, ended);
    }
  }

  // ---- the whole replay ------------------------------------------------------------------

  /** From this much cash, a finished run's curve: one point at every bar's close and no other, each told by
      the fills and the closes so far. */
  ghost predicate CurveIs(cfg: Config, w: World, cash: real) {
    && w.book.startingCash == cash && CurveTold(cfg, w)
    && forall bar :: bar in w.bars ==> exists point :: point in w.book.curve && point.ts == bar.ClosesAt()
  }

  lemma {:induction false} ReplayIsTold(
    cfg: Config, w: World, day: Option<int>, bars: seq<Candle>, timeframe: Timeframe)
    requires cfg.Valid() && Between(cfg, w, day, bars, timeframe) && ToldSoFar(cfg, w)
    ensures var w' := Replay(cfg, w, day, bars); w'.fault.None? ==> CurveIs(cfg, w', w.book.startingCash)
    decreases bars
  {
    hide Inv, HandleBar, CloseDay, NoFills, CurveOk, Flat, NothingRests, Closable, ForcedStop, Expired, Fresh,
         CurveTold;
    if bars == [] {
      if day.Some? {
        CloseTold(cfg, w);
      }
    } else {
      var bar := bars[0];
      var today := DayOf(bar.ts);
      var next := w;
      if day.Some? && day.value != today {
        DayCloses(cfg, w);
        next := CloseDay(cfg, w);
        if next.fault.Some? {
          return;
        }
        CloseTold(cfg, w);
        CloseKeepsCurve(cfg, w, next);
        NoFillsEmpty(next);
      }
      HandleStep(cfg, next, bars, timeframe);
      HandleTold(cfg, next, bar);
      var w1 := HandleBar(cfg, next, bar);
      if w1.fault.None? {
        ReplayIsTold(cfg, w1, Some(today), bars[1..], timeframe);
      }
    }
  }

  lemma StartsTold(cfg: Config, cash: real, now: int, script: seq<seq<Signal>>)
    ensures ToldSoFar(cfg, Start(cash, now, script))
  {
  }

  /** Any replay that finishes reports one equity point at each bar's close and no other; and each point
      says what the fills delivered by then come to, at the last closes by then. */
  lemma EquityCurveIs(
    cfg: Config, cash: real, now: int, script: seq<seq<Signal>>, bars: seq<Candle>, timeframe: Timeframe)
    requires cfg.Valid() && ScriptValid(script) && Feeds(bars, timeframe, now)
    ensures var w' := Replay(cfg, Start(cash, now, script), None, bars);
            w'.fault.None? ==> w'.bars == bars && CurveIs(cfg, w', cash)
  {
    hide Between, Feeds, ScriptValid, Replay, CurveIs, ToldSoFar;
    StartsBetween(cfg, cash, now, script, bars, timeframe);
    StartsTold(cfg, cash, now, script);
    ReplayIsSafe(cfg, Start(cash, now, script), None, bars, timeframe);
    ReplayIsTold(cfg, Start(cash, now, script), None, bars, timeframe);
  }
}
