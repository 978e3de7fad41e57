/** `PaperAccount` and `BacktestPortfolio` as the source keeps them: a dictionary of positions, and
    round-trip records that each fill updates in place. Proved against the book in `Ledger`. */
module Portfolio {
  import opened Basics
  import opened Market
  import opened Ledger

  class PaperAccount {
    const startingCash: real
    var positions: map<Instrument, Position>
    var listing: seq<Instrument>

    constructor (startingCash: real)
      ensures this.startingCash == startingCash && positions == map[] && listing == []
    {
      this.startingCash, positions, listing := startingCash, map[], [];
    }

    /** Take a trade and its charges into the account. */
    method ApplyTrade(fill: Fill, fees: real) returns (r: Result<Position, Fault>)
      modifies this
      ensures fees < 0.0 ==>
                r == Err(NegativeCharges) && positions == old(positions) && listing == old(listing)
      ensures fees >= 0.0 ==>
                var i := fill.instrument;
                var before := if i in old(positions) then old(positions)[i] else NoPosition;
                var after := Booked(before, fill.side, fill.quantity, fill.price, fees);
                && r == Ok(after)
                && positions == old(positions)[i := after]
                && listing == if i in old(positions) then old(listing) else old(listing) + [i]
    {
      if fees < 0.0 {
        return Err(NegativeCharges);
      }
      var i := fill.instrument;
      var before := if i in positions then positions[i] else NoPosition;
      var after := Booked(before, fill.side, fill.quantity, fill.price, fees);
      if i !in positions {
        listing := listing + [i];
      }
      positions := positions[i := after];
      return Ok(after);
    }
  }

  function TripIn(trips: map<Instrument, Trip>, i: Instrument): Option<Trip> {
    if i in trips then Some(trips[i]) else None
  }

  lemma Overwritten(trips: map<Instrument, Trip>, i: Instrument, t: Trip, next: Option<Trip>)
    ensures WithTrip(trips[i := t], i, next) == WithTrip(trips, i, next)
  {
  }

  lemma SetTrip(trips: map<Instrument, Trip>, i: Instrument, t: Trip, next: Trip)
    ensures WithTrip(trips, i, Some(next)) == trips[i := next] == trips[i := t][i := next]
  {
  }

  /** `_Cycle`: a round trip in progress. */
  class Cycle {
    const direction: Direction
    const openedAt: int
    const baseGross: real
    const baseFees: real
    const run: RunId
    var entryQuantity: int
    var entryTurnover: real
    var exitQuantity: int
    var exitTurnover: real

    constructor (direction: Direction, openedAt: int, baseGross: real, baseFees: real, run: RunId)
      ensures View() == Trip(direction, openedAt, baseGross, baseFees, run, 0, 0.0, 0, 0.0)
    {
      this.direction, this.openedAt, this.run := direction, openedAt, run;
      this.baseGross, this.baseFees := baseGross, baseFees;
      entryQuantity, entryTurnover, exitQuantity, exitTurnover := 0, 0.0, 0, 0.0;
    }

    function View(): Trip
      reads this
    {
      Trip(direction, openedAt, baseGross, baseFees, run,
           entryQuantity, entryTurnover, exitQuantity, exitTurnover)
    }
  }

  class BacktestPortfolio {
    const account: PaperAccount
    var marks: map<Instrument, real>
    var cycles: map<Instrument, Cycle>
    var trades: seq<ClosedTrade>
    var curve: seq<EquityPoint>
    var notional: real
    var fillCount: nat

    /** Every round-trip record this book has ever made. */
    ghost var Repr: set<Cycle>

    /** No two instruments share a round-trip record. */
    ghost predicate Valid()
      reads this
    {
      && (forall i :: i in cycles ==> cycles[i] in Repr)
      && (forall i, j :: i in cycles && j in cycles && i != j ==> cycles[i] != cycles[j])
    }

    ghost function Trips(): (t: map<Instrument, Trip>)
      requires Valid()
      reads this, Repr
      ensures t.Keys == cycles.Keys
    {
      map i | i in cycles :: cycles[i].View()
    }

    ghost function View(): Book
      requires Valid()
      reads this, account, Repr
    {
      Book(account.startingCash, account.positions, account.listing, Trips(), marks, trades, curve,
           notional, fillCount)
    }

    constructor (startingCash: real)
      ensures Valid() && View() == EmptyBook(startingCash) && fresh(account) && Repr == {}
    {
      account := new PaperAccount(startingCash);
      marks, cycles, trades, curve, notional, fillCount := map[], map[], [], [], 0.0, 0;
      Repr := {};
    }

    /** The run that opened the instrument's current round trip. */
    method Owner(i: Instrument) returns (r: Result<RunId, Fault>)
      requires Valid()
      ensures r == if i in Trips() then Ok(Trips()[i].run) else Err(NoOpenRoundTrip)
    {
      return if i in cycles then Ok(cycles[i].run) else Err(NoOpenRoundTrip);
    }

    method LastPrice(i: Instrument) returns (r: Result<real, Fault>)
      ensures r == if i in marks then Ok(marks[i]) else Err(NoPriceSeen)
    {
      return if i in marks then Ok(marks[i]) else Err(NoPriceSeen);
    }

    /** `position`: what is held of an instrument, nothing if it was never traded. */
    method NetNow(i: Instrument) returns (net: int)
      requires Valid()
      ensures net == View().Net(i)
    {
      return if i in account.positions then account.positions[i].net else 0;
    }

    method Mark(i: Instrument, price: real)
      requires Valid()
      modifies this`marks
      ensures Valid() && View() == old(View()).(marks := old(marks)[i := price])
    {
      marks := marks[i := price];
    }

    /** Book one fill in the account and mark its instrument: all but its round trip. */
    method TakeTrade(fill: Fill, charges: real) returns (r: Result<(Position, Position), Fault>)
      requires Valid()
      modifies this`marks, this`notional, this`fillCount, account
      ensures Valid()
      ensures charges < 0.0 ==> r == Err(NegativeCharges) && View() == old(View())
      ensures charges >= 0.0 ==>
                var b, i := old(View()), fill.instrument;
                var after := Booked(b.Held(i), fill.side, fill.quantity, fill.price, charges);
                && r == Ok((b.Held(i), after))
                && View() == b.(positions := b.positions[i := after],
                                listing := if i in b.positions then b.listing else b.listing + [i],
                                marks := b.marks[i := fill.price],
                                notional := b.notional + fill.price * fill.quantity as real,
                                fillCount := b.fillCount + 1)
    {
      hide Booked;
      var i := fill.instrument;
      var before := if i in account.positions then account.positions[i] else NoPosition;
      ghost var trips := Trips();
      var booked := account.ApplyTrade(fill, charges);
      assert Trips() == trips;
      if booked.Err? {
        return Err(booked.error);
      }
      marks := marks[i := fill.price];
      notional := notional + fill.price * fill.quantity as real;
      fillCount := fillCount + 1;
      assert Trips() == trips;
      return Ok((before, booked.value));
    }

    /** One fill's whole effect on the book: account, mark, totals, round trip. */
    method ApplyFill(fill: Fill, charges: real) returns (r: Result<(), Fault>)
      requires Valid()
      modifies this`marks, this`cycles, this`trades, this`notional, this`fillCount, this`Repr, account, Repr
      ensures Valid() && fresh(Repr - old(Repr))
      ensures charges < 0.0 ==> r == Err(NegativeCharges) && View() == old(View())
      ensures charges >= 0.0 ==> r == Ok(()) && View() == Apply(old(View()), fill, charges)
    {
      hide Booked, Track, WithTrip, BacktestPortfolio.Valid;
      var taken := TakeTrade(fill, charges);
      if taken.Err? {
        return Err(taken.error);
      }
      TrackCycle(fill, taken.value.0, taken.value.1);
      return Ok(());
    }

    /** Count the fill into its round trip; close it, and open the next one, when it ends. */
    method TrackCycle(fill: Fill, before: Position, after: Position)
      requires Valid()
      modifies this`cycles, this`trades, this`Repr, Repr
      ensures Valid() && fresh(Repr - old(Repr))
      ensures var i := fill.instrument;
              var (next, closed) := Track(TripIn(old(Trips()), i), fill, before, after);
              && Trips() == WithTrip(old(Trips()), i, next)
              && trades == if closed.Some? then old(trades) + [closed.value] else old(trades)
    {
      hide Entering, Exiting, Opened, TripClosed, Running, WithTrip;
      var i := fill.instrument;
      ghost var trips := Trips();
      EnsureCycle(fill, before);
      ghost var t := Trips()[i];
      assert cycles[i].View() == t;
      if fill.Signed() > 0 <==> cycles[i].direction.LONG? {
        CountEntry(fill);
        SetTrip(trips, i, t, Entering(t, fill));
        return;
      }
      var closing := Min(fill.quantity, Abs(before.net));
      CountExit(fill, closing);
      ghost var t' := Exiting(t, fill, closing);
      SetTrip(trips, i, t, t');
      assert cycles[i].View() == t';
      if after.net == 0 || !(after.net > 0 <==> before.net > 0) {
        CloseCycle(fill, cycles[i], after);
        Overwritten(trips, i, t', None);
        Overwritten(trips, i, t', Some(Opened(fill, if after.net > 0 then LONG else SHORT,
                                              after.gross, after.fees, Abs(after.net))));
      }
    }

    method EnsureCycle(fill: Fill, before: Position)
      requires Valid()
      modifies this`cycles, this`Repr
      ensures Valid() && fresh(Repr - old(Repr)) && fill.instrument in cycles
      ensures var i := fill.instrument;
              Trips() == old(Trips())[i := Running(TripIn(old(Trips()), i), fill, before)]
    {
      var i := fill.instrument;
      ghost var trips := Trips();
      if i !in cycles {
        var direction := if fill.Signed() > 0 then LONG else SHORT;
        var begun := new Cycle(direction, fill.ts, before.gross, before.fees, fill.run);
        cycles := cycles[i := begun];
        Repr := Repr + {begun};
        assert Trips() == trips[i := begun.View()];
      } else {
        assert trips == trips[i := trips[i]];
      }
    }

    method CountEntry(fill: Fill)
      requires Valid() && fill.instrument in cycles
      modifies Repr
      ensures Valid()
      ensures var i := fill.instrument;
              Trips() == old(Trips())[i := Entering(old(Trips())[i], fill)]
    {
      var cycle := cycles[fill.instrument];
      ghost var trips := Trips();
      cycle.entryQuantity := cycle.entryQuantity + fill.quantity;
      cycle.entryTurnover := cycle.entryTurnover + fill.price * fill.quantity as real;
      assert cycle.View() == Entering(trips[fill.instrument], fill);
      assert Trips() == trips[fill.instrument := cycle.View()];
    }

    method CountExit(fill: Fill, closing: int)
      requires Valid() && fill.instrument in cycles
      modifies Repr
      ensures Valid()
      ensures var i := fill.instrument;
              Trips() == old(Trips())[i := Exiting(old(Trips())[i], fill, closing)]
    {
      var cycle := cycles[fill.instrument];
      ghost var trips := Trips();
      cycle.exitQuantity := cycle.exitQuantity + closing;
      cycle.exitTurnover := cycle.exitTurnover + fill.price * closing as real;
      assert cycle.View() == Exiting(trips[fill.instrument], fill, closing);
      assert Trips() == trips[fill.instrument := cycle.View()];
    }

    method CloseCycle(fill: Fill, cycle: Cycle, after: Position)
      requires Valid() && fill.instrument in cycles && cycles[fill.instrument] == cycle
      modifies this`cycles, this`trades, this`Repr
      ensures Valid() && fresh(Repr - old(Repr))
      ensures var i := fill.instrument;
              var next := if after.net == 0 then None
                          else Some(Opened(fill, if after.net > 0 then LONG else SHORT,
                                           after.gross, after.fees, Abs(after.net)));
              && Trips() == WithTrip(old(Trips()), i, next)
              && trades == old(trades) + [TripClosed(cycle.View(), fill, after)]
    {
      var i := fill.instrument;
      ghost var trips := Trips();
      trades := trades + [
        ClosedTrade(i, cycle.direction, cycle.entryQuantity, cycle.openedAt, fill.ts,
                    Average(cycle.entryTurnover, cycle.entryQuantity),
                    Average(cycle.exitTurnover, cycle.exitQuantity),
                    after.gross - cycle.baseGross, after.fees - cycle.baseFees, cycle.run)];
      cycles := cycles - {i};
      assert Trips() == trips - {i};
      if after.net != 0 {
        OpenNext(fill, if after.net > 0 then LONG else SHORT, after);
      }
    }

    /** After a flip: what is left over begins a round trip of its own. */
    method OpenNext(fill: Fill, direction: Direction, after: Position)
      requires Valid() && fill.instrument !in cycles
      modifies this`cycles, this`Repr
      ensures Valid() && fresh(Repr - old(Repr))
      ensures var t := Opened(fill, direction, after.gross, after.fees, Abs(after.net));
              Trips() == old(Trips())[fill.instrument := t]
    {
      ghost var trips := Trips();
      var next := new Cycle(direction, fill.ts, after.gross, after.fees, fill.run);
      next.entryQuantity := Abs(after.net);
      next.entryTurnover := fill.price * Abs(after.net) as real;
      cycles := cycles[fill.instrument := next];
      Repr := Repr + {next};
      assert Trips() == trips[fill.instrument := next.View()];
    }

    // ---- valuation: one pass over the account's positions ------------------------------

    method UnrealisedNow() returns (total: real)
      requires Valid() && forall i :: i in account.listing ==> i in account.positions
      ensures total == Unrealised(View(), account.listing)
    {
      total := 0.0;
      for n := 0 to |account.listing|
        invariant total == Unrealised(View(), account.listing[..n])
      {
        var i := account.listing[n];
        assert account.listing[..n + 1][..n] == account.listing[..n];
        var state := account.positions[i];
        if state.net != 0 {
          var mark := if i in marks then marks[i] else state.average;
          total := total + (mark - state.average) * state.net as real;
        }
      }
      assert account.listing[..|account.listing|] == account.listing;
    }

    method RealisedNow() returns (total: real)
      requires Valid() && forall i :: i in account.listing ==> i in account.positions
      ensures total == Realised(View(), account.listing)
    {
      total := 0.0;
      for n := 0 to |account.listing|
        invariant total == Realised(View(), account.listing[..n])
      {
        assert account.listing[..n + 1][..n] == account.listing[..n];
        var state := account.positions[account.listing[n]];
        total := total + (state.gross - state.fees);
      }
      assert account.listing[..|account.listing|] == account.listing;
    }

    method GrossExposureNow() returns (total: real)
      requires Valid() && forall i :: i in account.listing ==> i in account.positions
      ensures total == GrossExposure(View(), account.listing)
    {
      total := 0.0;
      for n := 0 to |account.listing|
        invariant total == GrossExposure(View(), account.listing[..n])
      {
        var i := account.listing[n];
        assert account.listing[..n + 1][..n] == account.listing[..n];
        var state := account.positions[i];
        if state.net != 0 {
          var mark := if i in marks then marks[i] else state.average;
          total := total + mark * Abs(state.net) as real;
        }
      }
      assert account.listing[..|account.listing|] == account.listing;
    }

    /** The instruments held, in the order they were first traded. */
    method OpenPositions() returns (held: seq<Instrument>)
      requires Valid() && forall i :: i in account.listing ==> i in account.positions
      ensures held == Open(View(), account.listing)
    {
      held := [];
      for n := 0 to |account.listing|
        invariant held == Open(View(), account.listing[..n])
      {
        var i := account.listing[n];
        assert account.listing[..n + 1][..n] == account.listing[..n];
        if account.positions[i].net != 0 {
          held := held + [i];
        }
      }
      assert account.listing[..|account.listing|] == account.listing;
    }

    method RecordPointAt(ts: int)
      requires Valid() && forall i :: i in account.listing ==> i in account.positions
      modifies this`curve
      ensures Valid() && View() == RecordPoint(old(View()), ts)
    {
      hide Realised, Unrealised, GrossExposure, Open;
      ghost var trips := Trips();
      var realised := RealisedNow();
      var unrealised := UnrealisedNow();
      var exposure := GrossExposureNow();
      var held := OpenPositions();
      curve := curve + [EquityPoint(ts, account.startingCash + realised + unrealised, exposure, |held|)];
      assert Trips() == trips;
    }
  }
}
