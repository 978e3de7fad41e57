/** Whole runs: a replay of any bars against any strategy keeps every promise of the session. */
module RunSafety {
  import opened Basics
  import opened Market
  import opened FillModel
  import opened Exchange
  import opened Ledger
  import opened Netting
  import opened Simulation
  import opened Lookahead
  import opened ExitOnly
  import opened Safety
  import opened SessionSafety

  // ---- the book a strategy sees ----------------------------------------------------------

  /** The book holds what the exchange filled whenever no fill waits in the queue. */
  lemma BookAgreesWithoutFills(cfg: Config, w: World, i: Instrument)
    requires Inv(cfg, w) && NoFills(w.queue)
    ensures w.book.Net(i) == LedgerNet(w.x.orders, i)
  {
    hide LedgerNet, EventNet, NetOf;
    BookingsAddUp(cfg, w.settled, i);
    NoFillsNoNet(w.settled, w.queue, i);
    assert InstrumentOk(w.book, BookingsOf(cfg, w.settled), i);
  }

  lemma {:induction false} NoFillsNoNet(events: seq<Event>, more: seq<Event>, i: Instrument)
    requires NoFills(more)
    ensures EventNet(events + more, i) == EventNet(events, i)
  {
    hide EventNet, TallyAll;
    if more == [] {
      assert events + more == events;
    } else {
      var n := |more| - 1;
      NoFillsNoNet(events, more[..n], i);
      EventsAppend(events + more[..n], more[n]);
      assert events + more == events + more[..n] + [more[n]];
    }
  }

  lemma ListeningFree(cfg: Config, w: World, listening: bool)
    requires Inv(cfg, w)
    ensures Inv(cfg, w.(listening := listening))
  {
    hide Agrees, OnlyExit, LedgerNet, ArmsHonest, LogHonest, MatchedOrders, LogOrders, BookOk, OutcomesOf,
         NamesOk, ScriptValid, BookingsOf, TallyAll, AllConsistent, FillsWithinLimits, Closable;
  }

  // ---- one bar, clock included -----------------------------------------------------------

  /** Time moves on: a new day starts with nothing owned. */
  lemma LaterKeeps(cfg: Config, w: World, now: int)
    requires Inv(cfg, w) && w.fault.None? && w.now <= now
    ensures Inv(cfg, w.(now := now))
    ensures DayOf(now) == DayOf(w.now) || forall i :: !Blocked(w.(now := now), i)
  {
    hide Agrees, OnlyExit, LedgerNet, ArmsHonest, LogHonest, MatchedOrders, LogOrders, BookOk, OutcomesOf,
         NamesOk, ScriptValid, BookingsOf, TallyAll, AllConsistent, FillsWithinLimits;
    assert DayOf(w.now) <= DayOf(now);
  }

  /** One bar of a replay, as far as it gets. */
  lemma HandleKeeps(cfg: Config, w: World, bar: Candle)
    requires cfg.Valid() && Inv(cfg, w) && w.fault.None? && bar.Valid() && w.now <= bar.ClosesAt()
    ensures var w' := HandleBar(cfg, w, bar);
            && Inv(cfg, w') && w'.now == bar.ClosesAt() && w.planned <= w'.planned && w'.listening == w.listening
            && (DayOf(w.now) == DayOf(bar.ClosesAt()) ==> OwnedShrink(w, w') && SameExits(w, w'))
            && (w'.fault.None? ==>
                  && NoFills(w'.queue) && w'.pending == Some(bar.ClosesAt()) && w'.bars == w.bars + [bar]
                  && w'.book.curve == Recorded(w, bar).book.curve
                  && (w'.book.Net(bar.instrument) != 0 && TimeOfDay(bar.ClosesAt()) >= cfg.squareOffAt ==>
                        Blocked(w', bar.instrument)))
  {
    hide Inv, LedgerNet, BeforeBar, Reply, Shrinks, NoFills, Equity;
    LaterKeeps(cfg, w, bar.ClosesAt());
    var synced := w.(now := bar.ClosesAt());
    BarKeeps(cfg, synced, bar);
    var acted := BeforeBar(cfg, synced, bar);
    if acted.fault.None? {
      NoFillsEmpty(acted);
      ReplyKeeps(cfg, acted);
    } else {
      NoReply(cfg, acted);
    }
  }

  lemma NoReply(cfg: Config, w: World)
    requires w.fault.Some?
    ensures Reply(cfg, w) == w
  {
  }

  /** A stopped run does nothing more. */
  lemma HandleStopped(cfg: Config, w: World, bar: Candle)
    requires w.fault.Some?
    ensures HandleBar(cfg, w, bar) == w
  {
  }

  // ---- after square-off ------------------------------------------------------------------

  /** The session trades through some bars; nothing ends the day in between. */
  function TradeBars(cfg: Config, w: World, bars: seq<Candle>): World
    decreases bars
  {
    if bars == [] then w else TradeBars(cfg, HandleBar(cfg, w, bars[0]), bars[1..])
  }

  /** Bars that close one after another, none before `from`, all on the Indian day of `from`. */
  ghost predicate SameDay(from: int, bars: seq<Candle>) {
    forall k :: 0 <= k < |bars| ==>
      && bars[k].Valid() && from <= bars[k].ClosesAt() && DayOf(bars[k].ClosesAt()) == DayOf(from)
      && (k > 0 ==> bars[k - 1].ClosesAt() <= bars[k].ClosesAt())
  }

  /** Once the session has taken an instrument over, then for the rest of the day, whatever the strategy
      sends and even if something stops the run, the exchange's position there never grows and never
      changes sign; and while the run goes on nothing rests there but the exit the session sent, which
      fits the position, and the book says the same. */
  lemma {:induction false} AfterSquareOffOnlyShrinks(cfg: Config, w: World, bars: seq<Candle>, i: Instrument)
    requires cfg.Valid() && Inv(cfg, w) && w.fault.None? && SameDay(w.now, bars) && Blocked(w, i)
    ensures var w' := TradeBars(cfg, w, bars);
            && Inv(cfg, w') && Shrinks(LedgerNet(w.x.orders, i), LedgerNet(w'.x.orders, i))
            && (w'.fault.None? ==>
                  && Blocked(w', i) && DayOf(w'.now) == DayOf(w.now)
                  && i in w.exits && i in w'.exits && w'.exits[i] == w.exits[i]
                  && OnlyExit(w'.x.orders, i, w.exits[i]))
            && (w'.fault.None? && NoFills(w.queue) ==>
                  NoFills(w'.queue) && w'.book.Net(i) == LedgerNet(w'.x.orders, i))
    decreases bars
  {
    hide Inv, LedgerNet, HandleBar, NoFills, OnlyExit, SameDay, OwnedShrink, Shrinks;
    BlockedExit(cfg, w, i);
    if bars != [] {
      var bar, rest := bars[0], bars[1..];
      SameDayRest(w.now, bars);
      HandleKeeps(cfg, w, bar);
      var w1 := HandleBar(cfg, w, bar);
      OwnedOne(w, w1, i);
      if w1.fault.None? {
        AfterSquareOffOnlyShrinks(cfg, w1, rest, i);
        ShrinksTransitive(LedgerNet(w.x.orders, i), LedgerNet(w1.x.orders, i),
                          LedgerNet(TradeBars(cfg, w1, rest).x.orders, i));
      } else {
        TradesNoMore(cfg, w1, rest);
      }
    } else {
      ShrinksToItself(LedgerNet(w.x.orders, i));
      if NoFills(w.queue) {
        BookAgreesWithoutFills(cfg, w, i);
      }
    }
  }

  lemma {:induction false} TradesNoMore(cfg: Config, w: World, bars: seq<Candle>)
    requires w.fault.Some?
    ensures TradeBars(cfg, w, bars) == w
    decreases bars
  {
    hide HandleBar;
    if bars != [] {
      HandleStopped(cfg, w, bars[0]);
      TradesNoMore(cfg, w, bars[1..]);
    }
  }

  lemma OwnedOne(w: World, w': World, i: Instrument)
    requires OwnedShrink(w, w') && Blocked(w, i)
    ensures Shrinks(LedgerNet(w.x.orders, i), LedgerNet(w'.x.orders, i))
  {
  }

  lemma ShrinksToItself(net: int)
    ensures Shrinks(net, net)
  {
  }

  lemma SameDayRest(from: int, bars: seq<Candle>)
    requires SameDay(from, bars) && bars != []
    ensures SameDay(bars[0].ClosesAt(), bars[1..])
    ensures bars[0].Valid() && from <= bars[0].ClosesAt() && DayOf(bars[0].ClosesAt()) == DayOf(from)
  {
    AscendFrom(bars);
  }

  lemma BlockedExit(cfg: Config, w: World, i: Instrument)
    requires Inv(cfg, w) && w.fault.None? && Blocked(w, i)
    ensures i in w.exits && OnlyExit(w.x.orders, i, w.exits[i])
  {
  }

  lemma {:induction false} AscendFrom(bars: seq<Candle>)
    requires bars != []
    requires forall k :: 0 < k < |bars| ==> bars[k - 1].ClosesAt() <= bars[k].ClosesAt()
    ensures forall k :: 0 <= k < |bars| ==> bars[0].ClosesAt() <= bars[k].ClosesAt()
  {
    var n := |bars| - 1;
    if n > 0 {
      AscendFrom(bars[..n]);
      assert bars[..n][n - 1] == bars[n - 1] && bars[n - 1].ClosesAt() <= bars[n].ClosesAt();
      assert forall k :: 0 <= k < n ==> bars[..n][k] == bars[k];
    }
  }

  // ---- one day's end ---------------------------------------------------------------------

  /** Everything a day's end promises. */
  ghost predicate DayClosed(cfg: Config, w: World, w': World) {
    && Inv(cfg, w') && w'.queue == [] && Flat(w') && NothingRests(w') && w'.listening && ClosedFrom(w, w')
  }

  /** The day ends flat with nothing resting, unless the run is stopped. A forced trade stops it exactly
      when the day's expiry was answered and some position has no forced price. */
  lemma DayCloses(cfg: Config, w: World)
    requires cfg.Valid() && Inv(cfg, w) && w.fault.None? && NoFills(w.queue)
    ensures var w' := CloseDay(cfg, w);
            && Inv(cfg, w')
            && (ForcedStop(w') <==>
                  Expired(cfg, w).fault.None? && exists i :: w.book.Net(i) != 0 && !Closable(cfg, w.book, i))
            && (w'.fault.None? ==> DayClosed(cfg, w, w'))
  {
    hide Inv, LedgerNet, SessionEnding, EndSession, SessionClosed, Expired, NoFills, OwnedShrink, Closable, Steady;
    SessionEndsFlat(cfg, w);
    var ended := SessionEnding(cfg, w);
    if ended.fault.None? {
      ClosingKeeps(cfg, ended);
      SteadyDay(w, ended, CloseDay(cfg, w));
    } else {
      ClosesNoMore(cfg, ended);
    }
  }

  lemma SteadyDay(w: World, ended: World, w': World)
    requires Steady(w, ended) && ended.book.curve == w.book.curve
    ensures ClosedFrom(ended, w') ==> ClosedFrom(w, w')
  {
  }

  /** Where a closed day stands, against where it began to close. */
  ghost predicate ClosedFrom(w: World, w': World) {
    && w'.now == w.now && w'.planned == w.planned && w'.bars == w.bars && w'.log == w.log
    && w'.pending == None
    && (if w.pending.None? then w'.book.curve == w.book.curve
        else |w'.book.curve| == |w.book.curve| + 1 && w.book.curve <= w'.book.curve
             && w'.book.curve[|w.book.curve|].ts == w.pending.value)
  }

  /** After the broker's trades: the strategy's last word, and what it sent expired. */
  lemma ClosingKeeps(cfg: Config, ended: World)
    requires cfg.Valid() && Inv(cfg, ended) && ended.fault.None? && ended.queue == [] && Flat(ended)
    ensures var w' := BeginSession(SessionClosed(cfg, EndSession(cfg, ended)));
            && Inv(cfg, w') && !ForcedStop(w')
            && (w'.fault.None? ==>
                  w'.queue == [] && Flat(w') && NothingRests(w') && w'.listening && ClosedFrom(ended, w'))
  {
    hide Inv, LedgerNet, Reply, Settle, ExpireAll, Expired, NoFills, Equity, NothingRests;
    ListeningFree(cfg, ended, false);
    ReplyKeeps(cfg, ended.(listening := false));
    AnswerNotForced(cfg, ended.(listening := false));
    NoFillsEmpty(ended);
    var last := EndSession(cfg, ended);
    SilentClose(cfg, last);
    var closed := SessionClosed(cfg, last);
    ListeningFree(cfg, closed, true);
    if closed.fault.None? {
      OnlyOrders(closed, BeginSession(closed));
    }
  }

  lemma AnswerNotForced(cfg: Config, w: World)
    ensures w.fault.None? ==> !ForcedStop(Reply(cfg, w))
  {
    hide SubmitAll;
    if w.script != [] {
      AnswerIsNotForced(cfg, w.(script := w.script[1..]), w.script[0]);
    }
  }

  /** Closing with a receiver that is not listening cannot be stopped. */
  lemma SilentClose(cfg: Config, w: World)
    requires cfg.Valid() && Inv(cfg, w) && !w.listening && NoFills(w.queue)
    ensures var w' := SessionClosed(cfg, w);
            && Inv(cfg, w') && w'.fault == w.fault && w'.listening == w.listening
            && (w.fault.None? ==>
                  && w'.queue == [] && NothingRests(w') && w'.book.positions == w.book.positions
                  && ClosedFrom(w, w')
                  && forall i :: LedgerNet(w'.x.orders, i) == LedgerNet(w.x.orders, i))
  {
    hide Inv, LedgerNet, Settle, ExpireAll, NoFills, Equity, NothingRests, Expired;
    ExpiredKeeps(cfg, w);
    ClosedIsExpired(cfg, w);
    var e := Expired(cfg, w);
    RecordKeeps(cfg, e);
    if e.fault.None? {
      OnlyOrders(e, SessionClosed(cfg, w));
    }
  }

  lemma ClosedIsExpired(cfg: Config, w: World)
    ensures SessionClosed(cfg, w) == RecordPending(Expired(cfg, w))
  {
    hide Settle, ExpireAll, RecordPending;
  }

  lemma ClosesNoMore(cfg: Config, w: World)
    requires w.fault.Some?
    ensures BeginSession(SessionClosed(cfg, EndSession(cfg, w))) == w
  {
  }

  lemma OnlyOrders(w: World, w': World)
    requires w.x == w'.x && NothingRests(w)
    ensures NothingRests(w')
  {
  }

  // ---- the equity curve ------------------------------------------------------------------

  /** Points at strictly increasing instants, the pending one after all of them. */
  ghost predicate CurveOk(w: World) {
    && (forall j, k :: 0 <= j < k < |w.book.curve| ==> w.book.curve[j].ts < w.book.curve[k].ts)
    && (forall k :: 0 <= k < |w.book.curve| ==> w.book.curve[k].ts <= w.now)
    && (w.pending.Some? ==>
          && w.pending.value <= w.now
          && forall k :: 0 <= k < |w.book.curve| ==> w.book.curve[k].ts < w.pending.value)
  }

  lemma BarKeepsCurve(w: World, bar: Candle, w': World)
    requires CurveOk(w) && w.now <= bar.ClosesAt() && (w.pending.None? ==> w.now < bar.ClosesAt() || w.book.curve == [])
    requires w'.book.curve == Recorded(w, bar).book.curve
    requires w'.pending == Some(bar.ClosesAt()) && w'.now == bar.ClosesAt()
    ensures CurveOk(w')
  {
    hide Equity;
  }

  lemma CloseKeepsCurve(cfg: Config, w: World, w': World)
    requires CurveOk(w) && DayClosed(cfg, w, w')
    ensures CurveOk(w')
  {
    hide Inv, Flat, NothingRests;
  }

  // ---- the whole replay ------------------------------------------------------------------

  /** What a feed hands out: bars of one timeframe, oldest first, none opening before `from`. */
  ghost predicate Feeds(bars: seq<Candle>, timeframe: Timeframe, from: int) {
    forall k :: 0 <= k < |bars| ==>
      && bars[k].Valid() && bars[k].timeframe == timeframe && from <= bars[k].ts
      && forall j :: 0 <= j < k ==> bars[j].ts <= bars[k].ts
  }

  /** Between two bars of a replay: where the clock, the pending point and the last bar stand. */
  ghost predicate Between(cfg: Config, w: World, day: Option<int>, bars: seq<Candle>, timeframe: Timeframe) {
    && Inv(cfg, w) && w.fault.None? && NoFills(w.queue) && CurveOk(w)
    && match day
       case None => w.bars == [] && w.pending == None && w.book.curve == [] && w.queue == []
                    && Flat(w) && NothingRests(w) && Feeds(bars, timeframe, w.now)
       case Some(d) =>
         && w.bars != [] && w.pending == Some(w.now)
         && var last := w.bars[|w.bars| - 1];
            && last.timeframe == timeframe && w.now == last.ClosesAt() && DayOf(last.ts) == d
            && Feeds(bars, timeframe, last.ts)
  }

  lemma HandleStep(cfg: Config, w: World, bars: seq<Candle>, timeframe: Timeframe)
    requires cfg.Valid() && Inv(cfg, w) && w.fault.None? && CurveOk(w) && bars != []
    requires w.now <= bars[0].ClosesAt()
    requires w.pending.None? ==> w.now < bars[0].ClosesAt() || w.book.curve == []
    requires exists from :: Feeds(bars, timeframe, from)
    ensures var w' := HandleBar(cfg, w, bars[0]);
            && Inv(cfg, w')
            && (w'.fault.None? ==>
                  Between(cfg, w', Some(DayOf(bars[0].ts)), bars[1..], timeframe) && w'.bars == w.bars + [bars[0]])
  {
    hide Inv, LedgerNet, HandleBar, NoFills, CurveOk, Equity, OwnedShrink, Flat, NothingRests;
    var from :| Feeds(bars, timeframe, from);
    HandleKeeps(cfg, w, bars[0]);
    if HandleBar(cfg, w, bars[0]).fault.None? {
      BarKeepsCurve(w, bars[0], HandleBar(cfg, w, bars[0]));
    }
  }

  /** Any replay, of any bars, against any strategy: it finishes flat with nothing resting and every
      promise kept, or something stopped it, for one of the reasons `Stopped` gives; and even then
      the exchange, the book and the counters agree. */
  lemma {:induction false} ReplayIsSafe(
    cfg: Config, w: World, day: Option<int>, bars: seq<Candle>, timeframe: Timeframe)
    requires cfg.Valid() && Between(cfg, w, day, bars, timeframe)
    ensures var w' := Replay(cfg, w, day, bars);
            && Inv(cfg, w')
            && (w'.fault.None? ==>
                  && CurveOk(w') && w'.queue == [] && w'.pending == None
                  && Flat(w') && NothingRests(w') && w'.bars == w.bars + bars)
    decreases bars
  {
    hide Inv, LedgerNet, HandleBar, CloseDay, NoFills, CurveOk, Flat, NothingRests, Closable, ForcedStop, Expired;
    if bars == [] {
      assert w.bars + bars == w.bars;
      if day.Some? {
        DayCloses(cfg, w);
        if CloseDay(cfg, w).fault.None? {
          CloseKeepsCurve(cfg, w, CloseDay(cfg, w));
        }
      }
    } else {
      var bar := bars[0];
      var today := DayOf(bar.ts);
      var next := w;
      if day.Some? && day.value != today {
        DayCloses(cfg, w);
        next := CloseDay(cfg, w);
        if next.fault.Some? {
          return;
        }
        CloseKeepsCurve(cfg, w, next);
      }
      HandleStep(cfg, next, bars, timeframe);
      var w1 := HandleBar(cfg, next, bar);
      if w1.fault.None? {
        ReplayIsSafe(cfg, w1, Some(today), bars[1..], timeframe);
        assert next.bars + [bar] + bars[1..] == w.bars + bars;
      }
    }
  }

  /** The strategy's last word of the day: one more answer, all of it submitted, and then it hears nothing. */
  lemma LastAnswer(cfg: Config, w: World)
    requires cfg.Valid() && Inv(cfg, w) && w.fault.None?
    ensures var w' := EndSession(cfg, w);
            && !w'.listening
            && (w.script != [] ==>
                  && w'.script == w.script[1..]
                  && (w'.fault.None? ==> w'.counters.signals == w.counters.signals + |w.script[0]|))
  {
    hide Inv, Reply;
    ListeningFree(cfg, w, false);
    ReplyKeeps(cfg, w.(listening := false));
    if w.script != [] {
      RepliesInFull(cfg, w.(listening := false));
    }
  }

  // ---- a run, day by day -----------------------------------------------------------------

  /** The bars of one Indian day: they are traded one after another, and then the day is closed, once. */
  lemma {:induction false} OneDay(cfg: Config, w: World, day: Option<int>, bars: seq<Candle>)
    requires w.fault.None? && (bars == [] ==> day.Some?)
    requires forall k :: 0 <= k < |bars| ==> DayOf(bars[k].ts) == DayOf(bars[0].ts)
    requires day.Some? && bars != [] ==> day.value == DayOf(bars[0].ts)
    ensures var traded := TradeBars(cfg, w, bars);
            Replay(cfg, w, day, bars) == if traded.fault.Some? then traded else CloseDay(cfg, traded)
    decreases bars
  {
    hide HandleBar, CloseDay;
    if bars != [] {
      var w1 := HandleBar(cfg, w, bars[0]);
      if w1.fault.None? {
        OneDay(cfg, w1, Some(DayOf(bars[0].ts)), bars[1..]);
      } else {
        TradesNoMore(cfg, w1, bars[1..]);
      }
    }
  }

  /** Where the Indian day changes, the run might as well have ended and begun again. */
  lemma {:induction false} DaysApart(cfg: Config, w: World, day: Option<int>, a: seq<Candle>, b: seq<Candle>)
    requires a != [] && b != [] && DayOf(a[|a| - 1].ts) != DayOf(b[0].ts)
    ensures Replay(cfg, w, day, a + b) == Replay(cfg, Replay(cfg, w, day, a), None, b)
    decreases a
  {
    hide HandleBar, CloseDay, DayOf;
    if w.fault.None? {
      var today := DayOf(a[0].ts);
      var next := if day.Some? && day.value != today then CloseDay(cfg, w) else w;
      assert (a + b)[0] == a[0] && (a + b)[1..] == a[1..] + b;
      if next.fault.None? {
        var w1 := HandleBar(cfg, next, a[0]);
        if |a| == 1 {
          assert a[1..] + b == b;
        } else {
          DaysApart(cfg, w1, Some(today), a[1..], b);
        }
      }
    }
  }

  /** No position and no order ever passes from one Indian day into the next: there, a run is flat, nothing
      rests, and it goes on as a new one would. */
  lemma NothingPassesMidnight(
    cfg: Config, w: World, day: Option<int>, a: seq<Candle>, b: seq<Candle>, timeframe: Timeframe)
    requires cfg.Valid() && Between(cfg, w, day, a, timeframe) && a != [] && b != []
    requires (a[|a| - 1].ts + 19_800_000_000) / 86_400_000_000 != (b[0].ts + 19_800_000_000) / 86_400_000_000
    ensures var w1 := Replay(cfg, w, day, a);
            && Replay(cfg, w, day, a + b) == Replay(cfg, w1, None, b)
            && (w1.fault.None? ==>
                  && w1.bars == w.bars + a && w1.queue == []
                  && (forall i :: w1.book.Net(i) == 0 && LedgerNet(w1.x.orders, i) == 0)
                  && forall k :: 0 <= k < |w1.x.orders| ==>
                       w1.x.orders[k].status == FILLED || w1.x.orders[k].status == CANCELLED
                       || w1.x.orders[k].status == REJECTED)
  {
    hide Between, Replay, Inv, CurveOk, LedgerNet;
    DaysApart(cfg, w, day, a, b);
    ReplayIsSafe(cfg, w, day, a, timeframe);
  }

  // ---- the promises, read off a finished run ---------------------------------------------

  lemma StartsBetween(cfg: Config, cash: real, now: int, script: seq<seq<Signal>>, bars: seq<Candle>,
                      timeframe: Timeframe)
    requires cfg.Valid() && ScriptValid(script) && Feeds(bars, timeframe, now)
    ensures Between(cfg, Start(cash, now, script), None, bars, timeframe)
  {
    hide Feeds, ScriptValid, Accounted, Config.Valid;
    var w := Start(cash, now, script);
    StartsAccounted(cfg, cash, now, script);
    assert Inv(cfg, w);
  }

  lemma StartsAccounted(cfg: Config, cash: real, now: int, script: seq<seq<Signal>>)
    ensures Accounted(cfg, Start(cash, now, script))
  {
    hide BookOk, Agrees, NamesOk;
    EmptyBookOk(cash);
    NothingAgrees();
    NoNames(cash);
  }

  lemma NothingAgrees()
    ensures Agrees(ExchangeState([], {}, 0), [])
  {
  }

  lemma NoNames(cash: real)
    ensures NamesOk(EmptyBook(cash))
  {
  }

  /** No look-ahead: every matched fill of the run is in the log, and the bar that made it had not
      closed when the order was accepted, nor, for a stop, when it was armed. The bar traded through the
      limit, or with the gentler rule reached it; and some bar of the run before it, accepted order or
      later, reached the stop's trigger. */
  lemma NoLookAhead(cfg: Config, w: World, l: nat)
    requires Inv(cfg, w) && l < |w.log|
    ensures MatchedOrders(w.pushed) == LogOrders(w.log)
    ensures var o, bar := w.x.orders[w.log[l].orderId], w.log[l].bar;
            var buy, limit := o.request.side == BUY, o.request.limit;
            && bar in w.bars && bar.instrument == o.request.instrument && !bar.partial
            && o.acceptedAt <= bar.ts < bar.ClosesAt()
            && (cfg.model.crossing.ThroughBar? ==> if buy then bar.low < limit else bar.high > limit)
            && (cfg.model.crossing.TouchBar? ==> if buy then bar.low <= limit else bar.high >= limit)
            && (o.request.orderType.STOPLOSS_LIMIT? ==>
                  && o.armedAt.Some? && o.armedAt.value <= bar.ts
                  && exists b :: b in w.bars && Arms(o, b))
  {
    var o := w.x.orders[w.log[l].orderId];
    assert Fair(o, w.log[l].bar, cfg.model);
    if o.request.orderType.STOPLOSS_LIMIT? {
      var b :| b in w.bars && ArmedBy(o, b, cfg.model);
      assert Arms(o, b);
    }
  }

  /** This bar armed the stop at its close: it opened after the order was accepted and rose to a buy's
      trigger, or fell to a sell's. */
  ghost predicate Arms(o: Order, b: Candle) {
    && b.instrument == o.request.instrument && !b.partial && o.acceptedAt <= b.ts
    && o.armedAt == Some(b.ClosesAt()) && o.request.trigger.Some?
    && if o.request.side == BUY then b.high >= o.request.trigger.value else b.low <= o.request.trigger.value
  }

  /** No fill of a run was worse than its order's limit. */
  lemma NoFillWorseThanLimit(cfg: Config, w: World, k: nat)
    requires Inv(cfg, w) && k < |w.pushed| && w.pushed[k].fill.Some? && w.pushed[k].fill.value.reason.MATCHED?
    ensures var f := w.pushed[k].fill.value;
            && f.orderId < |w.x.orders|
            && var r := w.x.orders[f.orderId].request;
               r.Valid() && f.instrument == r.instrument && f.side == r.side && WithinLimit(r.side, r.limit, f.price)
  {
    assert w.x.orders[w.pushed[k].fill.value.orderId].Consistent();
  }

  /** Nothing queued: the last a strategy heard of each order is what it is, its status, its filled quantity
      and the average price of its fills; and those fills are exactly the ones it was told of. */
  lemma OrdersAreReported(cfg: Config, w: World, id: nat)
    requires Inv(cfg, w) && w.queue == [] && id < |w.x.orders|
    ensures LastWord(w.settled, id).Some?
    ensures var u, o := LastWord(w.settled, id).value, w.x.orders[id];
            && u.status == o.status && u.tag == o.request.tag && u.quantity == o.request.quantity
            && u.instrument == o.request.instrument && u.side == o.request.side
            && u.filledQuantity == o.filled == QuantityOf(w.settled, id)
            && u.averagePrice == if o.filled == 0 then None else Some(CostOf(w.settled, id) / o.filled as real)
  {
    assert w.settled == w.pushed;
    assert Reported(w.x.orders[id], w.pushed, id);
  }

  /** No client tag is ever used twice in a run. */
  lemma TagsAreUnique(cfg: Config, w: World, j: nat, k: nat)
    requires Inv(cfg, w) && j < k < |w.x.orders|
    ensures w.x.orders[j].request.tag != w.x.orders[k].request.tag
  {
  }

  /** The fills of a run are numbered one, two, three, in the order they were made. */
  lemma FillsAreNumbered(cfg: Config, w: World, k: nat)
    requires Inv(cfg, w) && k < |w.pushed| && w.pushed[k].fill.Some?
    ensures w.pushed[k].fill.value.sequence == TallyAll(w.pushed[..k + 1]).fills
  {
    NumberedAt(w.pushed, k);
  }

  lemma {:induction false} NumberedAt(events: seq<Event>, k: nat)
    requires Numbered(events) && k < |events| && events[k].fill.Some?
    ensures events[k].fill.value.sequence == TallyAll(events[..k + 1]).fills
  {
    hide TallyAll;
    if k == |events| - 1 {
      assert events[..k + 1] == events;
    } else {
      NumberedAt(events[..|events| - 1], k);
      assert events[..|events| - 1][..k + 1] == events[..k + 1];
    }
  }

  /** Nothing queued: the counters account for every signal, every order and every fill. */
  lemma CountersBalance(cfg: Config, w: World)
    requires Inv(cfg, w) && w.queue == []
    ensures w.settled == w.pushed
    ensures var c, o := w.counters, OutcomesOf(w.x.orders);
            && c.signals + c.squareOffSignals == c.refused + c.gateRejections + c.orders
            && c.orders == o.rejected + o.cancelled + o.done + o.resting + Dropped(w)
            && c.tally.rejected == o.rejected && c.tally.cancelled == o.cancelled
            && c.tally.forced == o.forced && c.tally.fills == w.x.fills == w.book.fillCount
  {
    EveryOrderHasOneOutcome(w.x.orders);
    BookingsCount(cfg, w.settled);
  }

  lemma {:induction false} BookingsCount(cfg: Config, events: seq<Event>)
    ensures |BookingsOf(cfg, events)| == TallyAll(events).fills
  {
    if events != [] {
      BookingsCount(cfg, events[..|events| - 1]);
    }
  }
}
