/** The multi-strategy replay: every instrument's bars of one moment form a batch, and the strategies
    answer to whole batches. Nothing tells them of fills, so the receiver is silent throughout. */
module MultiReplay {
  import opened Basics
  import opened Market
  import opened Broker
  import opened Ledger
  import opened Portfolio
  import opened Netting
  import opened Simulation
  import opened ExitOnly
  import opened Safety
  import opened SessionSafety
  import opened RunSafety
  import opened Valuation
  import opened Flow
  import opened Session

  // ---- batches ---------------------------------------------------------------------------

  /** The runs of bars of one moment. */
  function Batches(bars: seq<Candle>): (b: seq<seq<Candle>>)
    ensures bars != [] ==> b != [] && b[|b| - 1] != [] && b[|b| - 1][0].ts == bars[|bars| - 1].ts
    ensures bars == [] ==> b == []
  {
    if bars == [] then []
    else
      var n := |bars| - 1;
      var front := Batches(bars[..n]);
      if n > 0 && bars[n - 1].ts == bars[n].ts then front[..|front| - 1] + [front[|front| - 1] + [bars[n]]]
      else front + [[bars[n]]]
  }

  function Concat(batches: seq<seq<Candle>>): seq<Candle> {
    if batches == [] then [] else Concat(batches[..|batches| - 1]) + batches[|batches| - 1]
  }

  /** Batches of one moment each, one moment after another. */
  ghost predicate Moments(batches: seq<seq<Candle>>) {
    && (forall m :: 0 <= m < |batches| ==> batches[m] != [])
    && (forall m, k :: 0 <= m < |batches| && 0 <= k < |batches[m]| ==> batches[m][k].ts == batches[m][0].ts)
    && (forall l, m :: 0 <= l < m < |batches| ==>
          batches[l] != [] && batches[m] != [] && batches[l][0].ts < batches[m][0].ts)
  }

  /** The batches are the bars, cut where and only where the time changes: over bars in order, each
      batch is everything of its moment. */
  lemma {:induction false} BatchesAreMoments(bars: seq<Candle>)
    requires forall j, k :: 0 <= j < k < |bars| ==> bars[j].ts <= bars[k].ts
    ensures Concat(Batches(bars)) == bars && Moments(Batches(bars))
  {
    hide Moments, Concat;
    if bars != [] {
      var n := |bars| - 1;
      var front := Batches(bars[..n]);
      BatchesAreMoments(bars[..n]);
      if n > 0 && bars[n - 1].ts == bars[n].ts {
        Grows(front, bars[n]);
      } else {
        Starts(front, bars[n]);
      }
      assert bars[..n] + [bars[n]] == bars;
    } else {
      NoBatches();
    }
  }

  lemma NoBatches()
    ensures Moments([]) && Concat([]) == []
  {
  }

  lemma Grows(batches: seq<seq<Candle>>, bar: Candle)
    requires Moments(batches) && batches != [] && batches[|batches| - 1][0].ts == bar.ts
    ensures var f := |batches| - 1;
            var grown := batches[..f] + [batches[f] + [bar]];
            Moments(grown) && Concat(grown) == Concat(batches) + [bar]
  {
    var f := |batches| - 1;
    var grown := batches[..f] + [batches[f] + [bar]];
    assert grown[..f] == batches[..f] && grown[f] == batches[f] + [bar];
    forall m, k | 0 <= m < |grown| && 0 <= k < |grown[m]| ensures grown[m][k].ts == grown[m][0].ts {
      assert m < f ==> grown[m] == batches[m];
    }
  }

  lemma ConcatOne(batches: seq<seq<Candle>>, batch: seq<Candle>)
    ensures Concat(batches + [batch]) == Concat(batches) + batch
  {
    assert (batches + [batch])[..|batches|] == batches;
  }

  lemma Starts(batches: seq<seq<Candle>>, bar: Candle)
    requires Moments(batches) && (batches != [] ==> batches[|batches| - 1][0].ts < bar.ts)
    ensures Moments(batches + [[bar]]) && Concat(batches + [[bar]]) == Concat(batches) + [bar]
  {
    hide Concat, Moments;
    ConcatOne(batches, [bar]);
    var one: seq<Candle> := [bar];
    forall l | 0 <= l < |batches| ensures batches[l] != [] && batches[l][0].ts < bar.ts {
      BeforeLast(batches, l);
    }
    OneMoment(batches, one);
  }

  lemma BeforeLast(batches: seq<seq<Candle>>, l: nat)
    requires Moments(batches) && l < |batches|
    ensures batches[l] != [] && batches[|batches| - 1] != []
    ensures batches[l][0].ts <= batches[|batches| - 1][0].ts
  {
  }

  lemma OneMoment(batches: seq<seq<Candle>>, one: seq<Candle>)
    requires Moments(batches) && |one| == 1
    requires forall l :: 0 <= l < |batches| ==> batches[l] != [] && batches[l][0].ts < one[0].ts
    ensures Moments(batches + [one])
  {
    hide Concat;
    var more: seq<seq<Candle>> := batches + [one];
    forall l, m | 0 <= l < m < |more|
      ensures more[l] != [] && more[m] != [] && more[l][0].ts < more[m][0].ts
    {
      if m < |batches| {
        InOrder(batches, l, m);
      }
    }
  }

  lemma InOrder(batches: seq<seq<Candle>>, l: nat, m: nat)
    requires Moments(batches) && l < m < |batches|
    ensures batches[l] != [] && batches[m] != [] && batches[l][0].ts < batches[m][0].ts
  {
  }

  // ---- the run as a value ----------------------------------------------------------------

  /** Hand a batch to the strategies; an empty one is not handed over. */
  function Flush(cfg: Config, w: World, batch: seq<Candle>): World { if batch == [] then w else Reply(cfg, w) }

  function CloseMulti(cfg: Config, w: World): World {
    SessionClosed(cfg, SessionEnding(cfg, w))
  }

  /** What happens before a bar itself: another day closes the last one, another moment flushes. */
  function Settled(cfg: Config, w: World, day: Option<int>, batch: seq<Candle>, bar: Candle): World {
    if day.Some? && day.value != DayOf(bar.ts) then CloseMulti(cfg, Flush(cfg, w, batch))
    else if batch != [] && batch[0].ts != bar.ts then Flush(cfg, w, batch)
    else w
  }

  function NextBatch(batch: seq<Candle>, bar: Candle): seq<Candle> {
    if batch != [] && batch[0].ts == bar.ts then batch + [bar] else [bar]
  }

  function MultiReplay(cfg: Config, w: World, day: Option<int>, batch: seq<Candle>, bars: seq<Candle>): World
    decreases bars
  {
    if bars == [] then
      var flushed := Flush(cfg, w, batch);
      if day.Some? then CloseMulti(cfg, flushed) else flushed
    else
      var next := Settled(cfg, w, day, batch, bars[0]);
      if next.fault.Some? then next
      else
        var today := Some(DayOf(bars[0].ts));
        MultiReplay(cfg, HandleBar(cfg, next, bars[0]), today, NextBatch(batch, bars[0]), bars[1..])
  }

  // ---- safety ----------------------------------------------------------------------------

  /** Everything a day's end promises, with the receiver still silent. */
  ghost predicate MultiClosed(cfg: Config, w: World, w': World) {
    && Inv(cfg, w') && w'.queue == [] && Flat(w') && NothingRests(w') && !w'.listening && ClosedFrom(w, w')
  }

  /** With a silent receiver no one can answer in between: the day ends flat and empty exactly when every
      open position has a forced price, and nothing else can stop it. */
  lemma MultiDayCloses(cfg: Config, w: World)
    requires cfg.Valid() && Inv(cfg, w) && w.fault.None? && NoFills(w.queue) && !w.listening
    ensures var w' := CloseMulti(cfg, w);
            && Inv(cfg, w')
            && (w'.fault.None? <==> forall i :: w.book.Net(i) != 0 ==> Closable(cfg, w.book, i))
            && (w'.fault.None? ==> MultiClosed(cfg, w, w'))
            && (w'.fault.Some? ==> ForcedStop(w'))
  {
    hide Inv, LedgerNet, SessionEnding, SessionClosed, Expired, NoFills, OwnedShrink, Closable, ForcedStop;
    SessionEndsFlat(cfg, w);
    ExpiredKeeps(cfg, w);
    var ended := SessionEnding(cfg, w);
    if ended.fault.None? {
      NoFillsEmpty(ended);
      SilentClose(cfg, ended);
      SteadyDay(w, ended, CloseMulti(cfg, w));
    } else {
      NothingCloses(cfg, ended);
    }
  }

  lemma MultiCloseKeepsCurve(cfg: Config, w: World, w': World)
    requires CurveOk(w) && MultiClosed(cfg, w, w')
    ensures CurveOk(w')
  {
    hide Inv, Flat, NothingRests;
  }

  /** Between two bars. */
  ghost predicate MultiBetween(cfg: Config, w: World, day: Option<int>, batch: seq<Candle>, bars: seq<Candle>,
                               timeframe: Timeframe)
  {
    && Inv(cfg, w) && w.fault.None? && NoFills(w.queue) && CurveOk(w) && !w.listening
    && match day
       case None => batch == [] && w.bars == [] && w.pending == None && w.book.curve == [] && w.queue == []
                    && Flat(w) && NothingRests(w) && Feeds(bars, timeframe, w.now)
       case Some(d) =>
         && w.bars != [] && w.pending == Some(w.now) && batch != []
         && var last := w.bars[|w.bars| - 1];
            && last.timeframe == timeframe && w.now == last.ClosesAt() && DayOf(last.ts) == d
            && batch[0].ts == last.ts && Feeds(bars, timeframe, last.ts)
  }

  /** What flushing leaves alone: only orders are added. */
  lemma FlushKeeps(cfg: Config, w: World, batch: seq<Candle>)
    requires cfg.Valid() && Inv(cfg, w)
    ensures var w' := Flush(cfg, w, batch);
            && Inv(cfg, w') && w'.book == w.book && Steady(w, w')
            && (NoFills(w.queue) ==> NoFills(w'.queue)) && (CurveOk(w) ==> CurveOk(w'))
            && forall i :: LedgerNet(w'.x.orders, i) == LedgerNet(w.x.orders, i)
  {
    hide Inv, Reply, NoFills, LedgerNet, StaysEmpty;
    ReplyKeeps(cfg, w);
  }

  /** A batch with bars in it is answered once, and every signal of the answer is submitted; an empty one is
      not handed over. */
  lemma BatchesAreAnswered(cfg: Config, w: World, batch: seq<Candle>)
    requires cfg.Valid() && Inv(cfg, w) && w.fault.None?
    ensures var w' := Flush(cfg, w, batch);
            if batch == [] || w.script == [] then w' == w
            else
              && w'.script == w.script[1..]
              && (w'.fault.None? ==> w'.counters.signals == w.counters.signals + |w.script[0]|)
  {
    hide Inv, Reply;
    if w.script != [] {
      RepliesInFull(cfg, w);
    } else {
      NothingLeft(cfg, w);
    }
  }

  lemma NothingLeft(cfg: Config, w: World)
    requires w.script == []
    ensures Reply(cfg, w) == w
  {
  }

  /** Before a bar: the clock has not passed it, and a new moment has nothing pending from its own. */
  lemma SettledKeeps(cfg: Config, w: World, day: Option<int>, batch: seq<Candle>, bars: seq<Candle>,
                     timeframe: Timeframe)
    requires cfg.Valid() && MultiBetween(cfg, w, day, batch, bars, timeframe) && bars != []
    ensures var next := Settled(cfg, w, day, batch, bars[0]);
            && Inv(cfg, next)
            && (next.fault.None? ==>
                  && CurveOk(next) && !next.listening && next.bars == w.bars
                  && next.now == w.now <= bars[0].ClosesAt()
                  && (next.pending.None? ==> next.now < bars[0].ClosesAt() || next.book.curve == []))
  {
    hide Inv, LedgerNet, NoFills, CurveOk, Flat, NothingRests, CloseMulti, Flush, Closable, MultiClosed, ForcedStop;
    FlushKeeps(cfg, w, batch);
    var bar, flushed := bars[0], Flush(cfg, w, batch);
    if day.Some? && day.value != DayOf(bar.ts) {
      if flushed.fault.Some? {
        ClosesNothing(cfg, flushed);
      } else {
        MultiDayCloses(cfg, flushed);
        var next := CloseMulti(cfg, flushed);
        if next.fault.None? {
          ClosedFacts(cfg, flushed, next);
          MultiCloseKeepsCurve(cfg, flushed, next);
        }
      }
    }
  }

  lemma ClosesNothing(cfg: Config, w: World)
    requires w.fault.Some?
    ensures CloseMulti(cfg, w) == w
  {
  }

  lemma ClosedFacts(cfg: Config, w: World, w': World)
    requires MultiClosed(cfg, w, w')
    ensures Inv(cfg, w') && !w'.listening && w'.bars == w.bars && w'.now == w.now && w'.queue == []
    ensures Flat(w') && NothingRests(w') && w'.pending == None
  {
  }

  lemma MultiStep(cfg: Config, w: World, day: Option<int>, batch: seq<Candle>, bars: seq<Candle>, timeframe: Timeframe)
    requires cfg.Valid() && MultiBetween(cfg, w, day, batch, bars, timeframe) && bars != []
    ensures var next := Settled(cfg, w, day, batch, bars[0]);
            && Inv(cfg, next)
            && (next.fault.None? ==>
                  var w' := HandleBar(cfg, next, bars[0]);
                  && Inv(cfg, w')
                  && (w'.fault.None? ==>
                        && w'.bars == w.bars + [bars[0]]
                        && var batch' := NextBatch(batch, bars[0]);
                           MultiBetween(cfg, w', Some(DayOf(bars[0].ts)), batch', bars[1..], timeframe)))
  {
    hide Inv, LedgerNet, HandleBar, NoFills, CurveOk, Equity, OwnedShrink, Flat, NothingRests, Settled;
    SettledKeeps(cfg, w, day, batch, bars, timeframe);
    var next := Settled(cfg, w, day, batch, bars[0]);
    if next.fault.None? {
      HandleKeeps(cfg, next, bars[0]);
      if HandleBar(cfg, next, bars[0]).fault.None? {
        BarKeepsCurve(next, bars[0], HandleBar(cfg, next, bars[0]));
      }
    }
  }

  /** Any multi-strategy replay of bars in order, whatever the strategies answer: it finishes flat,
      empty and with every promise kept, or something stopped it, for one of the reasons `Stopped`
      gives; and even then the exchange, the book and the counters agree. */
  lemma {:induction false} MultiReplayIsSafe(
    cfg: Config, w: World, day: Option<int>, batch: seq<Candle>, bars: seq<Candle>, timeframe: Timeframe)
    requires cfg.Valid() && MultiBetween(cfg, w, day, batch, bars, timeframe)
    ensures var w' := MultiReplay(cfg, w, day, batch, bars);
            && Inv(cfg, w')
            && (w'.fault.None? ==>
                  && CurveOk(w') && w'.queue == [] && w'.pending == None
                  && Flat(w') && NothingRests(w') && w'.bars == w.bars + bars)
    decreases bars
  {
    hide Inv, LedgerNet, HandleBar, CloseMulti, NoFills, CurveOk, Flat, NothingRests, Closable, Settled, NextBatch,
         MultiClosed, ForcedStop;
    if bars == [] {
      assert w.bars + bars == w.bars;
      FlushKeeps(cfg, w, batch);
      var flushed := Flush(cfg, w, batch);
      if day.Some? {
        if flushed.fault.Some? {
          ClosesNothing(cfg, flushed);
        } else {
          MultiDayCloses(cfg, flushed);
          if CloseMulti(cfg, flushed).fault.None? {
            ClosedFacts(cfg, flushed, CloseMulti(cfg, flushed));
            MultiCloseKeepsCurve(cfg, flushed, CloseMulti(cfg, flushed));
          }
        }
      }
    } else {
      MultiStep(cfg, w, day, batch, bars, timeframe);
      var next := Settled(cfg, w, day, batch, bars[0]);
      var w1 := HandleBar(cfg, next, bars[0]);
      if next.fault.None? && w1.fault.None? {
        MultiReplayIsSafe(cfg, w1, Some(DayOf(bars[0].ts)), NextBatch(batch, bars[0]), bars[1..], timeframe);
        assert w.bars + [bars[0]] + bars[1..] == w.bars + bars;
      } else if next.fault.None? {
        ReplaysNothing(cfg, w1, Some(DayOf(bars[0].ts)), NextBatch(batch, bars[0]), bars[1..]);
      }
    }
  }

  lemma {:induction false} ReplaysNothing(
    cfg: Config, w: World, day: Option<int>, batch: seq<Candle>, bars: seq<Candle>)
    requires w.fault.Some?
    ensures MultiReplay(cfg, w, day, batch, bars) == w
  {
    ClosesNothing(cfg, w);
  }

  // ---- day by day ------------------------------------------------------------------------

  /** Where the Indian day changes, the run might as well have ended and begun again. */
  lemma {:induction false} MultiDaysApart(
    cfg: Config, w: World, day: Option<int>, batch: seq<Candle>, a: seq<Candle>, b: seq<Candle>)
    requires a != [] && b != [] && DayOf(a[|a| - 1].ts) != DayOf(b[0].ts)
    ensures MultiReplay(cfg, w, day, batch, a + b)
         == MultiReplay(cfg, MultiReplay(cfg, w, day, batch, a), None, [], b)
    decreases a
  {
    hide HandleBar, CloseMulti, DayOf, Flush;
    var next := Settled(cfg, w, day, batch, a[0]);
    assert (a + b)[0] == a[0] && (a + b)[1..] == a[1..] + b;
    if next.fault.None? {
      var w1, batch1 := HandleBar(cfg, next, a[0]), NextBatch(batch, a[0]);
      if |a| == 1 {
        assert a[1..] + b == b;
        LastOfTheDay(cfg, w1, batch1, a[0], b);
      } else {
        MultiDaysApart(cfg, w1, Some(DayOf(a[0].ts)), batch1, a[1..], b);
      }
    } else {
      ReplaysNothing(cfg, next, None, [], b);
    }
  }

  lemma LastOfTheDay(cfg: Config, w: World, batch: seq<Candle>, last: Candle, b: seq<Candle>)
    requires batch != [] && batch[0].ts == last.ts && b != [] && DayOf(last.ts) != DayOf(b[0].ts)
    ensures MultiReplay(cfg, w, Some(DayOf(last.ts)), batch, b)
         == MultiReplay(cfg, MultiReplay(cfg, w, Some(DayOf(last.ts)), batch, []), None, [], b)
  {
    hide HandleBar, CloseMulti, DayOf, Flush;
    var closed := CloseMulti(cfg, Flush(cfg, w, batch));
    assert Settled(cfg, w, Some(DayOf(last.ts)), batch, b[0]) == closed == Settled(cfg, closed, None, [], b[0]);
    assert NextBatch(batch, b[0]) == [b[0]] == NextBatch([], b[0]);
  }

  /** The bars of one Indian day: traded one after another, with the batches that go out between them;
      then the last batch goes out and the day is closed, once. */
  lemma {:induction false} MultiOneDay(cfg: Config, w: World, day: Option<int>, batch: seq<Candle>, bars: seq<Candle>)
    requires w.fault.None? && (bars == [] ==> day.Some?)
    requires forall k :: 0 <= k < |bars| ==> DayOf(bars[k].ts) == DayOf(bars[0].ts)
    requires day.Some? && bars != [] ==> day.value == DayOf(bars[0].ts)
    ensures var traded := MultiTrade(cfg, w, batch, bars);
            MultiReplay(cfg, w, day, batch, bars)
            == if traded.fault.Some? then traded else CloseMulti(cfg, Flush(cfg, traded, LastBatch(batch, bars)))
    decreases bars
  {
    hide HandleBar, CloseMulti, Flush, DayOf, NextBatch;
    if bars != [] {
      var next := if batch != [] && batch[0].ts != bars[0].ts then Flush(cfg, w, batch) else w;
      var w1 := HandleBar(cfg, next, bars[0]);
      assert Settled(cfg, w, day, batch, bars[0]) == next;
      if next.fault.Some? {
        HandleStopped(cfg, next, bars[0]);
      }
      if w1.fault.None? {
        MultiOneDay(cfg, w1, Some(DayOf(bars[0].ts)), NextBatch(batch, bars[0]), bars[1..]);
      } else {
        MultiTradesNoMore(cfg, w1, NextBatch(batch, bars[0]), bars[1..]);
        ReplaysNothing(cfg, w1, Some(DayOf(bars[0].ts)), NextBatch(batch, bars[0]), bars[1..]);
      }
    }
  }

  /** The batch that is open after some bars. */
  function LastBatch(batch: seq<Candle>, bars: seq<Candle>): seq<Candle>
    decreases bars
  {
    if bars == [] then batch else LastBatch(NextBatch(batch, bars[0]), bars[1..])
  }

  // ---- the equity curve ------------------------------------------------------------------

  lemma FlushTold(cfg: Config, w: World, batch: seq<Candle>)
    requires cfg.Valid() && Inv(cfg, w) && ToldSoFar(cfg, w)
    ensures ToldSoFar(cfg, Flush(cfg, w, batch))
  {
    hide Inv, Reply, ToldSoFar, CurveOk, StaysEmpty;
    FlushKeeps(cfg, w, batch);
    ReplyQueues(cfg, w);
    SameTold(cfg, w, Flush(cfg, w, batch));
  }

  lemma MultiCloseTold(cfg: Config, w: World)
    requires cfg.Valid() && Inv(cfg, w) && w.fault.None? && NoFills(w.queue) && !w.listening
    requires ToldSoFar(cfg, w) && CurveOk(w) && w.pending == Some(w.now)
    ensures var w' := CloseMulti(cfg, w);
            w'.fault.None? ==>
              ToldSoFar(cfg, w') && w'.pending == None && w'.book.startingCash == w.book.startingCash
  {
    hide Inv, SessionEnding, SessionClosed, ToldSoFar, CurveOk;
    EndingTold(cfg, w);
    var ended := SessionEnding(cfg, w);
    if ended.fault.None? {
      LastPointTold(cfg, ended);
    } else {
      NothingCloses(cfg, ended);
    }
  }

  /** Before a bar, as far as the curve goes. */
  lemma SettledTold(cfg: Config, w: World, day: Option<int>, batch: seq<Candle>, bars: seq<Candle>,
                    timeframe: Timeframe)
    requires cfg.Valid() && MultiBetween(cfg, w, day, batch, bars, timeframe) && bars != [] && ToldSoFar(cfg, w)
    ensures var next := Settled(cfg, w, day, batch, bars[0]);
            next.fault.None? ==>
              ToldSoFar(cfg, next) && NoFills(next.queue) && next.book.startingCash == w.book.startingCash
  {
    hide Inv, LedgerNet, NoFills, CurveOk, Flat, NothingRests, CloseMulti, Flush, Closable, MultiClosed, ForcedStop,
         ToldSoFar;
    FlushKeeps(cfg, w, batch);
    FlushTold(cfg, w, batch);
    var flushed := Flush(cfg, w, batch);
    if day.Some? && day.value != DayOf(bars[0].ts) {
      if flushed.fault.Some? {
        ClosesNothing(cfg, flushed);
      } else {
        MultiDayCloses(cfg, flushed);
        MultiCloseTold(cfg, flushed);
        if CloseMulti(cfg, flushed).fault.None? {
          ClosedFacts(cfg, flushed, CloseMulti(cfg, flushed));
          NoFillsEmpty(CloseMulti(cfg, flushed));
        }
      }
    }
  }

  /** The curve of a multi-strategy replay is told by its fills and bars as that of a single one. */
  lemma {:induction false} MultiReplayIsTold(
    cfg: Config, w: World, day: Option<int>, batch: seq<Candle>, bars: seq<Candle>, timeframe: Timeframe)
    requires cfg.Valid() && MultiBetween(cfg, w, day, batch, bars, timeframe) && ToldSoFar(cfg, w)
    ensures var w' := MultiReplay(cfg, w, day, batch, bars);
            w'.fault.None? ==> CurveIs(cfg, w', w.book.startingCash)
    decreases bars
  {
    hide Inv, LedgerNet, HandleBar, CloseMulti, NoFills, CurveOk, Flat, NothingRests, Closable, Settled, NextBatch,
         MultiClosed, ForcedStop, Fresh, CurveTold;
    if bars == [] {
      FlushKeeps(cfg, w, batch);
      FlushTold(cfg, w, batch);
      var flushed := Flush(cfg, w, batch);
      if day.Some? {
        if flushed.fault.Some? {
          ClosesNothing(cfg, flushed);
        } else {
          MultiCloseTold(cfg, flushed);
        }
      }
    } else {
      MultiStep(cfg, w, day, batch, bars, timeframe);
      SettledKeeps(cfg, w, day, batch, bars, timeframe);
      SettledTold(cfg, w, day, batch, bars, timeframe);
      var next := Settled(cfg, w, day, batch, bars[0]);
      if next.fault.None? {
        HandleTold(cfg, next, bars[0]);
        var w1 := HandleBar(cfg, next, bars[0]);
        if w1.fault.None? {
          MultiReplayIsTold(cfg, w1, Some(DayOf(bars[0].ts)), NextBatch(batch, bars[0]), bars[1..], timeframe);
        } else {
          ReplaysNothing(cfg, w1, Some(DayOf(bars[0].ts)), NextBatch(batch, bars[0]), bars[1..]);
        }
      }
    }
  }

  // ---- after square-off ------------------------------------------------------------------

  /** Bars of one day, with the batches that go out between them. */
  function MultiTrade(cfg: Config, w: World, batch: seq<Candle>, bars: seq<Candle>): World
    decreases bars
  {
    if bars == [] then w
    else
      var next := if batch != [] && batch[0].ts != bars[0].ts then Flush(cfg, w, batch) else w;
      MultiTrade(cfg, HandleBar(cfg, next, bars[0]), NextBatch(batch, bars[0]), bars[1..])
  }

  /** Many strategies answering to whole moments cannot grow or turn an owned position either. */
  lemma {:induction false} MultiOnlyShrinks(
    cfg: Config, w: World, batch: seq<Candle>, bars: seq<Candle>, i: Instrument)
    requires cfg.Valid() && Inv(cfg, w) && w.fault.None? && SameDay(w.now, bars) && Blocked(w, i)
    ensures var w' := MultiTrade(cfg, w, batch, bars);
            && Inv(cfg, w') && Shrinks(LedgerNet(w.x.orders, i), LedgerNet(w'.x.orders, i))
            && (w'.fault.None? ==>
                  && Blocked(w', i) && DayOf(w'.now) == DayOf(w.now)
                  && i in w.exits && i in w'.exits && w'.exits[i] == w.exits[i]
                  && OnlyExit(w'.x.orders, i, w.exits[i]))
    decreases bars
  {
    hide Inv, LedgerNet, HandleBar, NoFills, OnlyExit, SameDay, OwnedShrink, Shrinks, Flush, NextBatch, CurveOk;
    BlockedExit(cfg, w, i);
    ShrinksToItself(LedgerNet(w.x.orders, i));
    if bars != [] {
      var bar, rest := bars[0], bars[1..];
      var next := if batch != [] && batch[0].ts != bar.ts then Flush(cfg, w, batch) else w;
      FlushKeeps(cfg, w, batch);
      SameDayRest(w.now, bars);
      if next.fault.Some? {
        HandleStopped(cfg, next, bar);
        MultiTradesNoMore(cfg, next, NextBatch(batch, bar), rest);
        return;
      }
      HandleKeeps(cfg, next, bar);
      var w1 := HandleBar(cfg, next, bar);
      OwnedOne(next, w1, i);
      if w1.fault.None? {
        MultiOnlyShrinks(cfg, w1, NextBatch(batch, bar), rest, i);
        ShrinksTransitive(LedgerNet(w.x.orders, i), LedgerNet(w1.x.orders, i),
                          LedgerNet(MultiTrade(cfg, w1, NextBatch(batch, bar), rest).x.orders, i));
      } else {
        MultiTradesNoMore(cfg, w1, NextBatch(batch, bar), rest);
      }
    }
  }

  lemma {:induction false} MultiTradesNoMore(cfg: Config, w: World, batch: seq<Candle>, bars: seq<Candle>)
    requires w.fault.Some?
    ensures MultiTrade(cfg, w, batch, bars) == w
    decreases bars
  {
    hide HandleBar;
    if bars != [] {
      HandleStopped(cfg, w, bars[0]);
      NoReply(cfg, w);
      MultiTradesNoMore(cfg, w, NextBatch(batch, bars[0]), bars[1..]);
    }
  }

  // ---- the replay ------------------------------------------------------------------------

  /** `_MultiStrategyReplay`. `strategies` answers to batches; it hears of nothing else. */
  class MultiStrategyReplay {
    const session: BacktestSession
    const strategies: StrategyRunner
    ghost var flushed: seq<seq<Candle>>

    constructor (session: BacktestSession, strategies: StrategyRunner)
      ensures this.session == session && this.strategies == strategies && flushed == []
    {
      this.session, this.strategies, flushed := session, strategies, [];
    }

    ghost predicate Valid()
      reads session.settler.portfolio, session.settler.receiver.flow.broker,
            session.settler.receiver.flow.broker.orders
    {
      session.Valid() && session.settler.receiver == strategies
    }

    method FlushBatch(batch: seq<Candle>, ghost w: World) returns (fault: Option<Fault>)
      requires Valid() && session.Shows(w) && Inv(session.cfg, w) && w.fault.None?
      modifies this, strategies`script, session.broker, session.queue, session.flow.counters
      ensures Valid() && session.broker.Grew()
      ensures session.Shows(Flush(session.cfg, w, batch)) && fault == Flush(session.cfg, w, batch).fault
      ensures flushed == old(flushed) + InHand(batch)
    {
      hide Inv, Reply, SimulatedBroker.Valid, SimulatedBroker.View, BacktestPortfolio.Valid, BacktestPortfolio.View;
      if batch == [] {
        return None;
      }
      session.ValidConfig();
      ReplyFrame(session.cfg, w);
      fault := strategies.ForwardSignals(w);
      flushed := flushed + [batch];
    }

    method CloseSession(ghost w: World) returns (fault: Option<Fault>)
      requires Valid() && session.Shows(w) && Inv(session.cfg, w) && w.fault.None?
      modifies session`pending, session.queue, session.flow.counters, strategies`script, session.broker
      modifies session.broker.orders, session.portfolio, session.portfolio.account, session.portfolio.Repr
      ensures Valid() && fresh(session.portfolio.Repr - old(session.portfolio.Repr)) && session.broker.Grew()
      ensures session.Shows(CloseMulti(session.cfg, w)) && fault == CloseMulti(session.cfg, w).fault
    {
      hide Inv, SessionEnding, SessionClosed, BacktestSession.Valid, BacktestSession.Shows;
      session.ValidConfig();
      CloseStages(session.cfg, w);
      fault := session.SessionEnding(w);
      if fault.None? {
        fault := session.SessionClosed(SessionEnding(session.cfg, w));
      }
    }

    method FlushAndClose(batch: seq<Candle>, ghost w: World) returns (fault: Option<Fault>)
      requires Valid() && session.Shows(w) && Inv(session.cfg, w) && w.fault.None?
      requires Inv(session.cfg, Flush(session.cfg, w, batch))
      modifies this, session`pending, session.queue, session.flow.counters, strategies`script, session.broker
      modifies session.broker.orders, session.portfolio, session.portfolio.account, session.portfolio.Repr
      ensures Valid() && fresh(session.portfolio.Repr - old(session.portfolio.Repr)) && session.broker.Grew()
      ensures var closed := CloseMulti(session.cfg, Flush(session.cfg, w, batch));
              session.Shows(closed) && fault == closed.fault
      ensures flushed == old(flushed) + InHand(batch)
    {
      hide Inv, Flush, CloseMulti, BacktestSession.Valid, BacktestSession.Shows, MultiStrategyReplay.Valid;
      ghost var sent := Flush(session.cfg, w, batch);
      fault := FlushBatch(batch, w);
      if fault.None? {
        fault := CloseSession(sent);
      } else {
        ClosesNothing(session.cfg, sent);
      }
    }

    /** Before a bar: the last batch goes out if its moment is over, and the day closes if it is. */
    method Settle(day: Option<int>, batch: seq<Candle>, bar: Candle, ghost w: World) returns (fault: Option<Fault>)
      requires Valid() && session.Shows(w) && Inv(session.cfg, w) && w.fault.None?
      requires Inv(session.cfg, Flush(session.cfg, w, batch))
      modifies this, session`pending, session.queue, session.flow.counters, strategies`script, session.broker
      modifies session.broker.orders, session.portfolio, session.portfolio.account, session.portfolio.Repr
      ensures Valid() && fresh(session.portfolio.Repr - old(session.portfolio.Repr)) && session.broker.Grew()
      ensures var next := Settled(session.cfg, w, day, batch, bar); session.Shows(next) && fault == next.fault
      ensures flushed == if EndsBatch(day, batch, bar) then old(flushed) + [batch] else old(flushed)
    {
      hide Inv, Flush, CloseMulti, BacktestSession.Valid, BacktestSession.Shows, MultiStrategyReplay.Valid;
      fault := None;
      if day.Some? && day.value != DayOf(bar.ts) {
        fault := FlushAndClose(batch, w);
      } else if batch != [] && batch[0].ts != bar.ts {
        fault := FlushBatch(batch, w);
      }
    }

    lemma ValidSession()
      requires Valid()
      ensures session.cfg.Valid()
    {
    }

    /** The bar trades; the strategies will see it with its batch. */
    method OneBar(bar: Candle, ghost w: World) returns (fault: Option<Fault>)
      requires Valid() && session.Shows(w) && Inv(session.cfg, w) && w.fault.None?
      requires bar.Valid() && w.now <= bar.ClosesAt() && !w.listening
      modifies session, session.queue, session.flow.counters, strategies`script, session.broker
      modifies session.broker.clock, session.squareOff
      modifies session.broker.orders, session.portfolio, session.portfolio.account, session.portfolio.Repr
      ensures Valid() && fresh(session.portfolio.Repr - old(session.portfolio.Repr)) && session.broker.Grew()
      ensures session.Shows(HandleBar(session.cfg, w, bar)) && fault == HandleBar(session.cfg, w, bar).fault
    {
      hide Inv, BeforeBar, HandleBar, BacktestSession.Valid, BacktestSession.Shows;
      session.ValidConfig();
      SilentBar(session.cfg, w, bar);
      session.Sync(bar, w);
      fault := session.BeforeBar(bar, Synced(w, bar));
    }

    /** One turn of the loop. */
    method Turn(day: Option<int>, batch: seq<Candle>, bar: Candle, ghost w: World) returns (fault: Option<Fault>)
      requires Valid() && session.Shows(w) && Inv(session.cfg, w) && w.fault.None? && bar.Valid()
      requires Inv(session.cfg, Flush(session.cfg, w, batch))
      requires var next := Settled(session.cfg, w, day, batch, bar);
               next.fault.None? ==> Inv(session.cfg, next) && next.now <= bar.ClosesAt() && !next.listening
      modifies this, session, session.queue, session.flow.counters, strategies`script, session.broker
      modifies session.broker.clock, session.squareOff
      modifies session.broker.orders, session.portfolio, session.portfolio.account, session.portfolio.Repr
      ensures Valid() && fresh(session.portfolio.Repr - old(session.portfolio.Repr)) && session.broker.Grew()
      ensures var next := Settled(session.cfg, w, day, batch, bar);
              var w' := if next.fault.Some? then next else HandleBar(session.cfg, next, bar);
              session.Shows(w') && fault == w'.fault
      ensures flushed == if EndsBatch(day, batch, bar) then old(flushed) + [batch] else old(flushed)
    {
      hide Inv, HandleBar, Settled, Flush, EndsBatch, BacktestSession.Valid, BacktestSession.Shows,
           MultiStrategyReplay.Valid;
      fault := Settle(day, batch, bar, w);
      if fault.None? {
        fault := OneBar(bar, Settled(session.cfg, w, day, batch, bar));
      }
    }

    /** The batch in hand goes out and the day closes. */
    method Finish(day: Option<int>, batch: seq<Candle>, ghost w: World) returns (fault: Option<Fault>)
      requires Valid() && session.Shows(w) && Inv(session.cfg, w) && w.fault.None?
      requires Inv(session.cfg, Flush(session.cfg, w, batch))
      modifies this, session`pending, session.queue, session.flow.counters, strategies`script, session.broker
      modifies session.broker.orders, session.portfolio, session.portfolio.account, session.portfolio.Repr
      ensures var w' := MultiReplay(session.cfg, w, day, batch, []);
              Valid() && session.Shows(w') && fault == w'.fault
      ensures flushed == old(flushed) + InHand(batch)
    {
      hide Inv, Flush, CloseMulti, BacktestSession.Valid, BacktestSession.Shows, MultiStrategyReplay.Valid;
      if day.Some? {
        fault := FlushAndClose(batch, w);
      } else {
        fault := FlushBatch(batch, w);
      }
    }

    /** That turn, on the `k`th bar, with what the whole run needs to know of it. */
    method Advance(bars: seq<Candle>, k: nat, day: Option<int>, batch: seq<Candle>, ghost timeframe: Timeframe,
                   ghost w: World) returns (fault: Option<Fault>, ghost w': World)
      requires Valid() && session.Shows(w) && k < |bars|
      requires MultiBetween(session.cfg, w, day, batch, bars[k..], timeframe)
      requires flushed + InHand(batch) == Batches(bars[..k])
      requires day == (if k == 0 then None else Some(DayOf(bars[k - 1].ts))) && (k == 0 ==> batch == [])
      modifies this, session, session.queue, session.flow.counters, strategies`script, session.broker
      modifies session.broker.clock, session.squareOff
      modifies session.broker.orders, session.portfolio, session.portfolio.account, session.portfolio.Repr
      ensures Valid() && fresh(session.portfolio.Repr - old(session.portfolio.Repr)) && session.broker.Grew()
      ensures session.Shows(w') && fault == w'.fault
      ensures fault.Some? ==> w' == MultiReplay(session.cfg, w, day, batch, bars[k..])
      ensures fault.None? ==>
                var day', batch' := Some(DayOf(bars[k].ts)), NextBatch(batch, bars[k]);
                && MultiBetween(session.cfg, w', day', batch', bars[k + 1..], timeframe)
                && MultiReplay(session.cfg, w', day', batch', bars[k + 1..])
                   == MultiReplay(session.cfg, w, day, batch, bars[k..])
                && flushed + InHand(batch') == Batches(bars[..k + 1])
    {
      hide Inv, HandleBar, Settled, Flush, EndsBatch, BacktestSession.Valid, BacktestSession.Shows,
           MultiStrategyReplay.Valid, MultiBetween, MultiReplay, NextBatch, Batches, InHand;
      ValidSession();
      assert bars[k..][0] == bars[k] && bars[k..][1..] == bars[k + 1..];
      MultiStages(session.cfg, w, day, batch, bars[k..], timeframe);
      NextBatches(bars, k, flushed, day, batch);
      fault := Turn(day, batch, bars[k], w);
      ghost var next := Settled(session.cfg, w, day, batch, bars[k]);
      w' := if next.fault.Some? then next else HandleBar(session.cfg, next, bars[k]);
    }

    /** Replay bars in order. Every batch is everything of its moment, and goes out before any bar of
        a later one is seen. */
    method Run(bars: seq<Candle>, timeframe: Timeframe, ghost w: World) returns (fault: Option<Fault>)
      requires Valid() && session.Shows(w) && MultiBetween(session.cfg, w, None, [], bars, timeframe)
      requires flushed == []
      modifies this, session, session.queue, session.flow.counters, strategies`script, session.broker
      modifies session.broker.clock, session.squareOff
      modifies session.broker.orders, session.portfolio, session.portfolio.account, session.portfolio.Repr
      ensures var w' := MultiReplay(session.cfg, w, None, [], bars);
              Valid() && session.Shows(w') && fault == w'.fault
      ensures fault.None? ==> flushed == Batches(bars)
    {
      hide Inv, HandleBar, Settled, Flush, EndsBatch, BacktestSession.Valid, BacktestSession.Shows,
           MultiStrategyReplay.Valid, MultiBetween, MultiReplay, NextBatch, Batches, InHand;
      ghost var cfg, w' := session.cfg, w;
      ValidSession();
      NoneInHand();
      var day: Option<int>, batch: seq<Candle> := None, [];
      for k := 0 to |bars|
        invariant Valid() && session.Shows(w') && MultiBetween(cfg, w', day, batch, bars[k..], timeframe)
        invariant fresh(session.portfolio.Repr - old(session.portfolio.Repr)) && session.broker.Grew()
        invariant MultiReplay(cfg, w', day, batch, bars[k..]) == MultiReplay(cfg, w, None, [], bars)
        invariant flushed + InHand(batch) == Batches(bars[..k])
        invariant day == (if k == 0 then None else Some(DayOf(bars[k - 1].ts))) && (k == 0 ==> batch == [])
      {
        fault, w' := Advance(bars, k, day, batch, timeframe, w');
        if fault.Some? {
          return;
        }
        day, batch := Some(DayOf(bars[k].ts)), NextBatch(batch, bars[k]);
      }
      assert bars[|bars|..] == [] && bars[..|bars|] == bars;
      MultiEnds(cfg, w', day, batch, timeframe);
      fault := Finish(day, batch, w');
    }
  }

  function InHand(batch: seq<Candle>): seq<seq<Candle>> { if batch == [] then [] else [batch] }

  lemma NoneInHand()
    ensures InHand([]) == [] == Batches([])
  {
  }

  /** One more bar: it joins the batch in hand exactly when it is of the same moment. */
  lemma NextBatches(bars: seq<Candle>, k: nat, flushed: seq<seq<Candle>>, day: Option<int>, batch: seq<Candle>)
    requires k < |bars| && flushed + InHand(batch) == Batches(bars[..k]) && (k == 0 ==> batch == [])
    requires k > 0 ==> batch != [] && day == Some(DayOf(bars[k - 1].ts))
    ensures (if EndsBatch(day, batch, bars[k]) then flushed + [batch] else flushed) + InHand(NextBatch(batch, bars[k]))
         == Batches(bars[..k + 1])
  {
    var front, bar := bars[..k], bars[k];
    assert bars[..k + 1][..k] == front;
    if k > 0 {
      assert Batches(front) == flushed + [batch];
      assert batch[0].ts == front[k - 1].ts;
      assert (flushed + [batch])[..|flushed|] == flushed;
    }
  }

  /** A day's end or a later moment: the batch in hand goes out before this bar. */
  predicate EndsBatch(day: Option<int>, batch: seq<Candle>, bar: Candle) {
    batch != [] && ((day.Some? && day.value != DayOf(bar.ts)) || batch[0].ts != bar.ts)
  }

  lemma CloseStages(cfg: Config, w: World)
    requires cfg.Valid() && Inv(cfg, w) && w.fault.None?
    ensures var ended := SessionEnding(cfg, w);
            Inv(cfg, ended) && (ended.fault.Some? ==> CloseMulti(cfg, w) == ended)
  {
    hide Inv, LedgerNet, SessionEnding, SessionClosed, Expired, Flat, OwnedShrink, Closable, NoFills;
    SessionEndsFlat(cfg, w);
    if SessionEnding(cfg, w).fault.Some? {
      NothingCloses(cfg, SessionEnding(cfg, w));
    }
  }

  lemma SilentBar(cfg: Config, w: World, bar: Candle)
    requires cfg.Valid() && Inv(cfg, w) && w.fault.None? && bar.Valid() && w.now <= bar.ClosesAt() && !w.listening
    ensures var synced := Synced(w, bar);
            && Inv(cfg, synced) && synced.fault.None? && synced.now == bar.ClosesAt()
            && HandleBar(cfg, w, bar) == BeforeBar(cfg, synced, bar)
  {
    hide Inv, LedgerNet, BeforeBar, OwnedShrink, Recorded, HandleBar;
    HandleStages(cfg, w, bar);
    BarKeeps(cfg, Synced(w, bar), bar);
  }

  lemma MultiStages(cfg: Config, w: World, day: Option<int>, batch: seq<Candle>, bars: seq<Candle>,
                    timeframe: Timeframe)
    requires cfg.Valid() && MultiBetween(cfg, w, day, batch, bars, timeframe) && bars != []
    ensures Inv(cfg, w) && w.fault.None? && bars[0].Valid() && (day.Some? ==> batch != [])
    ensures Inv(cfg, Flush(cfg, w, batch))
    ensures var next := Settled(cfg, w, day, batch, bars[0]);
            && (next.fault.Some? ==> MultiReplay(cfg, w, day, batch, bars) == next)
            && (next.fault.None? ==>
                  && Inv(cfg, next) && next.now <= bars[0].ClosesAt() && !next.listening
                  && var w' := HandleBar(cfg, next, bars[0]);
                     var batch' := NextBatch(batch, bars[0]);
                     var today := Some(DayOf(bars[0].ts));
                     && MultiReplay(cfg, w, day, batch, bars) == MultiReplay(cfg, w', today, batch', bars[1..])
                     && (w'.fault.Some? ==> MultiReplay(cfg, w, day, batch, bars) == w')
                     && (w'.fault.None? ==> MultiBetween(cfg, w', today, batch', bars[1..], timeframe)))
  {
    hide Inv, LedgerNet, HandleBar, NoFills, CurveOk, Flat, NothingRests, Settled, NextBatch, Flush;
    FlushKeeps(cfg, w, batch);
    SettledKeeps(cfg, w, day, batch, bars, timeframe);
    MultiStep(cfg, w, day, batch, bars, timeframe);
    var next := Settled(cfg, w, day, batch, bars[0]);
    var w' := HandleBar(cfg, next, bars[0]);
    if next.fault.None? && w'.fault.Some? {
      ReplaysNothing(cfg, w', Some(DayOf(bars[0].ts)), NextBatch(batch, bars[0]), bars[1..]);
    }
  }

  lemma MultiEnds(cfg: Config, w: World, day: Option<int>, batch: seq<Candle>, timeframe: Timeframe)
    requires cfg.Valid() && MultiBetween(cfg, w, day, batch, [], timeframe)
    ensures Inv(cfg, w) && w.fault.None?
    ensures Inv(cfg, Flush(cfg, w, batch))
  {
    hide Inv, NoFills, CurveOk, Flat, NothingRests, Flush;
    FlushKeeps(cfg, w, batch);
  }
}
