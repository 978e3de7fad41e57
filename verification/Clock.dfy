/** Simulation time. */
module Clock {
  import opened Basics
  import opened Market

  /** The instant a run has reached; it never goes back. */
  class BarClock {
    var now: int

    constructor (start: int)
      ensures now == start
    {
      now := start;
    }

    /** Standing still is fine; going back is refused and leaves the clock where it is. */
    method Set(when: int) returns (r: Result<(), Fault>)
      modifies this
      ensures r.Ok? <==> when >= old(now)
      ensures now == if r.Ok? then when else old(now)
      ensures r.Err? ==> r.error == TimeTravel
    {
      if when < now {
        return Err(TimeTravel);
      }
      now := when;
      return Ok(());
    }

    /** `ReplayClockSync.sync_to`: move only when that is forward. */
    method SyncTo(when: int)
      modifies this
      ensures now == Max(old(now), when)
    {
      if when > now {
        var r := Set(when);
        assert r.Ok?;
      }
    }
  }
}
