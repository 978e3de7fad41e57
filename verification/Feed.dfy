/** The market-data feed: a single pass over closed bars, read from the repository chunk by chunk. */
module Feed {
  import opened Basics
  import opened Market
  import Sorting

  datatype FeedError = ALREADY_CONSUMED | WRONG_SERIES | OUT_OF_RANGE | TWICE

  /** `get_range(instrument, timeframe, start, stop)`. */
  type Reader = (Instrument, Timeframe, int, int) -> seq<Candle>

  /** An instrument's place in the feed's list. */
  function Rank(instruments: seq<Instrument>, i: Instrument): (k: nat)
    ensures k <= |instruments| && (k < |instruments| <==> i in instruments)
    ensures k < |instruments| ==> instruments[k] == i
  {
    if instruments == [] then 0
    else if instruments[0] == i then 0
    else 1 + Rank(instruments[1..], i)
  }

  /** Bars go out by opening time, and at one time in the order the instruments were named. */
  predicate Sooner(instruments: seq<Instrument>, a: Candle, b: Candle) {
    a.ts < b.ts || (a.ts == b.ts && Rank(instruments, a.instrument) < Rank(instruments, b.instrument))
  }

  function SoonerIn(instruments: seq<Instrument>): (Candle, Candle) -> bool {
    (a, b) => Sooner(instruments, a, b)
  }

  ghost predicate InTurn(instruments: seq<Instrument>, bars: seq<Candle>) {
    Sorting.Ascending(bars, SoonerIn(instruments))
  }

  // ---- checking what the repository returned ---------------------------------------------

  /** Bars of the right series, opening in the range, no two at one time. */
  ghost predicate Proper(bars: seq<Candle>, i: Instrument, tf: Timeframe, start: int, stop: int) {
    && (forall k :: 0 <= k < |bars| ==>
          bars[k].instrument == i && bars[k].timeframe == tf && start <= bars[k].ts < stop)
    && forall j, k :: 0 <= j < k < |bars| ==> bars[j].ts != bars[k].ts
  }

  method Check(i: Instrument, tf: Timeframe, bars: seq<Candle>, start: int, stop: int)
    returns (error: Option<FeedError>)
    ensures error == None <==> Proper(bars, i, tf, start, stop)
  {
    var seen: set<int> := {};
    for n := 0 to |bars|
      invariant seen == set k | 0 <= k < n :: bars[k].ts
      invariant Proper(bars[..n], i, tf, start, stop)
    {
      var bar := bars[n];
      if bar.instrument != i || bar.timeframe != tf {
        return Some(WRONG_SERIES);
      }
      if !(start <= bar.ts < stop) {
        return Some(OUT_OF_RANGE);
      }
      if bar.ts in seen {
        return Some(TWICE);
      }
      seen := seen + {bar.ts};
      forall j, k | 0 <= j < k < n + 1 ensures bars[j].ts != bars[k].ts {
        assert k < n ==> bars[..n][j].ts != bars[..n][k].ts;
        assert bars[j].ts in seen;
      }
    }
    assert bars[..|bars|] == bars;
    return None;
  }

  /** The bars already over when the window ends. */
  function ClosedBy(bars: seq<Candle>, end: int): (closed: seq<Candle>)
    ensures forall c :: c in closed <==> c in bars && c.ClosesAt() <= end
  {
    if bars == [] then []
    else ClosedBy(bars[..|bars| - 1], end) + if bars[|bars| - 1].ClosesAt() <= end then [bars[|bars| - 1]] else []
  }

  /** Filtering keeps apart what was apart. */
  ghost predicate Apart(bars: seq<Candle>) {
    forall j, k :: 0 <= j < k < |bars| ==> bars[j].ts != bars[k].ts || bars[j].instrument != bars[k].instrument
  }

  lemma {:induction false} ClosedStayApart(bars: seq<Candle>, end: int)
    requires Apart(bars)
    ensures Apart(ClosedBy(bars, end))
  {
    if bars != [] {
      var n := |bars| - 1;
      ClosedStayApart(bars[..n], end);
      var front := ClosedBy(bars[..n], end);
      forall j | 0 <= j < |front|
        ensures front[j].ts != bars[n].ts || front[j].instrument != bars[n].instrument
      {
        assert front[j] in bars[..n];
        var k :| 0 <= k < n && bars[k] == front[j];
      }
    }
  }

  // ---- the feed --------------------------------------------------------------------------

  /** A bar the window is owed. */
  predicate Owed(c: Candle, instruments: seq<Instrument>, tf: Timeframe, from: int, until: int, end: int) {
    c.instrument in instruments && c.timeframe == tf && from <= c.ts < until && c.ClosesAt() <= end
  }

  class ClosedBarFeed {
    const reader: Reader
    const instruments: seq<Instrument>
    const timeframe: Timeframe
    const start: int
    const end: int
    const chunk: int
    var consumed: bool

    ghost predicate Valid() {
      && instruments != [] && (forall j, k :: 0 <= j < k < |instruments| ==> instruments[j] != instruments[k])
      && start < end && chunk > 0
    }

    constructor (reader: Reader, instruments: seq<Instrument>, timeframe: Timeframe, start: int, end: int, chunk: int)
      requires instruments != [] && (forall j, k :: 0 <= j < k < |instruments| ==> instruments[j] != instruments[k])
      requires start < end && chunk > 0
      ensures Valid() && !consumed
      ensures this.reader == reader && this.instruments == instruments && this.timeframe == timeframe
      ensures this.start == start && this.end == end && this.chunk == chunk
    {
      this.reader, this.instruments, this.timeframe := reader, instruments, timeframe;
      this.start, this.end, this.chunk := start, end, chunk;
      consumed := false;
    }

    /** Whatever range is read, the repository returns what the store holds there, each bar once. */
    ghost predicate Serves(store: set<Candle>) {
      forall i, a, b :: a < b ==>
        && Proper(reader(i, timeframe, a, b), i, timeframe, a, b)
        && forall c :: c in reader(i, timeframe, a, b) <==>
                         c in store && c.instrument == i && c.timeframe == timeframe && a <= c.ts < b
    }

    /** Every instrument's bars for one range, in turn. */
    method ClosedBars(from: int, stop: int) returns (r: Result<seq<Candle>, FeedError>)
      requires Valid() && from < stop
      ensures r.Ok? ==>
                && InTurn(instruments, r.value)
                && forall c :: c in r.value <==>
                     c.instrument in instruments && c in reader(c.instrument, timeframe, from, stop)
                     && c.ClosesAt() <= end
      ensures r.Ok? <==>
                forall i :: i in instruments ==> Proper(reader(i, timeframe, from, stop), i, timeframe, from, stop)
      ensures r.Ok? ==> forall c :: c in r.value ==> Owed(c, instruments, timeframe, from, stop, end)
    {
      var bars: seq<Candle> := [];
      for n := 0 to |instruments|
        invariant Apart(bars)
        invariant forall i :: i in instruments[..n] ==>
                    Proper(reader(i, timeframe, from, stop), i, timeframe, from, stop)
        invariant forall c :: c in bars <==>
                    c.instrument in instruments[..n] && c in reader(c.instrument, timeframe, from, stop)
                    && c.ClosesAt() <= end
        invariant forall c :: c in bars ==> c.timeframe == timeframe && from <= c.ts < stop
      {
        var i := instruments[n];
        var received := reader(i, timeframe, from, stop);
        var error := Check(i, timeframe, received, from, stop);
        if error.Some? {
          return Err(error.value);
        }
        var closed := ClosedBy(received, end);
        ClosedStayApart(received, end);
        forall c | c in closed ensures c.instrument == i {
          assert c in received;
        }
        ApartTogether(bars, closed, instruments[..n], i);
        assert instruments[..n + 1] == instruments[..n] + [i];
        bars := bars + closed;
      }
      assert instruments[..|instruments|] == instruments;
      SortInTurn(instruments, bars);
      return Ok(Sorting.Sorted(bars, SoonerIn(instruments)));
    }

    /** The one pass: chunk after chunk, up to the first error. Whatever the repository does, the bars
        handed out before it are owed and strictly in turn; and if it serves a store there is no error,
        and they are exactly the bars the window is owed. */
    method Bars(ghost store: set<Candle>) returns (bars: seq<Candle>, error: Option<FeedError>)
      requires Valid()
      modifies this
      ensures consumed
      ensures old(consumed) ==> bars == [] && error == Some(ALREADY_CONSUMED)
      ensures InTurn(instruments, bars)
      ensures forall c :: c in bars ==> Owed(c, instruments, timeframe, start, end, end)
      ensures !old(consumed) && Serves(store) ==>
                && error == None
                && forall c :: c in bars <==> c in store && Owed(c, instruments, timeframe, start, end, end)
    {
      hide InTurn, Proper;
      bars := [];
      NoneInTurn(instruments);
      if consumed {
        return bars, Some(ALREADY_CONSUMED);
      }
      consumed := true;
      var cursor := start;
      while cursor < end
        invariant consumed && start <= cursor <= end && InTurn(instruments, bars)
        invariant forall c :: c in bars ==> Owed(c, instruments, timeframe, start, cursor, end)
        invariant Serves(store) ==>
                    forall c :: c in store && Owed(c, instruments, timeframe, start, cursor, end) ==> c in bars
        invariant Serves(store) ==> forall c :: c in bars ==> c in store
        decreases end - cursor
      {
        var stop := Min(cursor + chunk, end);
        var closed := ClosedBars(cursor, stop);
        if closed.Err? {
          return bars, Some(closed.error);
        }
        InTurnTogether(instruments, bars, closed.value, cursor);
        bars := bars + closed.value;
        cursor := stop;
      }
      return bars, None;
    }
  }

  lemma ApartTogether(bars: seq<Candle>, more: seq<Candle>, earlier: seq<Instrument>, i: Instrument)
    requires Apart(bars) && Apart(more) && i !in earlier
    requires forall c :: c in bars ==> c.instrument in earlier
    requires forall c :: c in more ==> c.instrument == i
    ensures Apart(bars + more)
  {
    assert forall j :: 0 <= j < |bars| ==> bars[j] in bars;
    assert forall k :: 0 <= k < |more| ==> more[k] in more;
  }

  lemma SoonerIsOrder(instruments: seq<Instrument>)
    ensures Sorting.Transitive(SoonerIn(instruments))
  {
    hide Rank;
  }

  lemma RanksDiffer(instruments: seq<Instrument>, i: Instrument, j: Instrument)
    requires i in instruments && j in instruments && i != j
    ensures Rank(instruments, i) != Rank(instruments, j)
  {
  }

  lemma SortInTurn(instruments: seq<Instrument>, bars: seq<Candle>)
    requires Apart(bars) && forall c :: c in bars ==> c.instrument in instruments
    ensures InTurn(instruments, Sorting.Sorted(bars, SoonerIn(instruments)))
    ensures forall c :: c in Sorting.Sorted(bars, SoonerIn(instruments)) <==> c in bars
  {
    hide Rank;
    SoonerIsOrder(instruments);
    forall j, k | 0 <= j < k < |bars|
      ensures Sooner(instruments, bars[j], bars[k]) || Sooner(instruments, bars[k], bars[j])
    {
      assert bars[j] in bars && bars[k] in bars;
      if bars[j].instrument != bars[k].instrument {
        RanksDiffer(instruments, bars[j].instrument, bars[k].instrument);
      }
    }
    Sorting.SortedIs(bars, SoonerIn(instruments));
  }

  /** What a feed hands out, word for word: the bars of its instruments and its timeframe that open within its
      window and are over by the end of it; earlier ones first, and at one time in the order in which the
      instruments were named. */
  lemma HandsOut(feed: ClosedBarFeed, store: set<Candle>, bars: seq<Candle>)
    requires feed.Valid() && InTurn(feed.instruments, bars)
    requires forall c :: c in bars <==>
               c in store && Owed(c, feed.instruments, feed.timeframe, feed.start, feed.end, feed.end)
    ensures forall c :: c in bars <==>
              && c in store && c.instrument in feed.instruments && c.timeframe == feed.timeframe
              && feed.start <= c.ts < feed.end && c.ts + c.timeframe.Duration() <= feed.end
    ensures forall j, k :: 0 <= j < k < |bars| ==> bars[j].ts <= bars[k].ts
    ensures forall j, k, a, b | 0 <= j < k < |bars| && bars[j].ts == bars[k].ts
                                && 0 <= a < |feed.instruments| && feed.instruments[a] == bars[j].instrument
                                && 0 <= b < |feed.instruments| && feed.instruments[b] == bars[k].instrument
              :: a < b
  {
    hide Rank;
    forall j, k | 0 <= j < k < |bars| ensures Sooner(feed.instruments, bars[j], bars[k]) {
    }
    assert forall k :: 0 <= k < |bars| ==> bars[k] in bars;
  }

  lemma NoneInTurn(instruments: seq<Instrument>)
    ensures InTurn(instruments, [])
  {
  }

  lemma InTurnTogether(instruments: seq<Instrument>, bars: seq<Candle>, more: seq<Candle>, cursor: int)
    requires InTurn(instruments, bars) && InTurn(instruments, more)
    requires (forall c :: c in bars ==> c.ts < cursor) && forall c :: c in more ==> cursor <= c.ts
    ensures InTurn(instruments, bars + more)
  {
    hide Rank;
    assert forall j :: 0 <= j < |bars| ==> bars[j] in bars;
    assert forall k :: 0 <= k < |more| ==> more[k] in more;
  }

  /** Two feeds of one store hand out the same bars in the same order, however they cut it up. */
  lemma ChunksDoNotMatter(instruments: seq<Instrument>, store: set<Candle>, tf: Timeframe, start: int, end: int,
                          one: seq<Candle>, other: seq<Candle>)
    requires InTurn(instruments, one) && InTurn(instruments, other)
    requires forall c :: c in one <==> c in store && Owed(c, instruments, tf, start, end, end)
    requires forall c :: c in other <==> c in store && Owed(c, instruments, tf, start, end, end)
    ensures one == other
  {
    SoonerIsOrder(instruments);
    Sorting.SortedOneWay(one, other, SoonerIn(instruments));
  }
}
