/** The multi-window sliding rate limiter: compact queues that decide as the full history would. */
module RateLimit {
  import opened Basics

  /** How far from its window's edge a grant may be and already count as out. */
  const EPSILON := 0.000001

  datatype Window = Window(limit: int, seconds: real) {
    predicate Valid() { limit > 0 && seconds > 0.0 }
  }

  /** The caps of one endpoint group; an unset one is not enforced. */
  datatype RateLimit = RateLimit(perSecond: int, perMinute: Option<int>, perHour: Option<int>) {
    predicate Valid() {
      perSecond > 0 && (perMinute.Some? ==> perMinute.value > 0) && (perHour.Some? ==> perHour.value > 0)
    }

    function Windows(): (windows: seq<Window>)
      ensures forall w :: w in windows <==>
                || w == Window(perSecond, 1.0)
                || (perMinute.Some? && w == Window(perMinute.value, 60.0))
                || (perHour.Some? && w == Window(perHour.value, 3600.0))
      ensures Valid() ==> windows != [] && forall w :: w in windows ==> w.Valid()
    {
      [Window(perSecond, 1.0)]
      + (if perMinute.Some? then [Window(perMinute.value, 60.0)] else [])
      + (if perHour.Some? then [Window(perHour.value, 3600.0)] else [])
    }
  }

  function MaxReal(a: real, b: real): real { if a >= b then a else b }

  // ---- the full history ------------------------------------------------------------------

  ghost predicate Ordered(h: seq<real>) {
    forall j, k :: 0 <= j < k < |h| ==> h[j] <= h[k]
  }

  /** The grants of the full history that a window still counts. */
  function InUse(h: seq<real>, cutoff: real): seq<real> {
    if h == [] then []
    else InUse(h[..|h| - 1], cutoff) + if h[|h| - 1] > cutoff then [h[|h| - 1]] else []
  }

  function Cutoff(w: Window, now: real): real { now - w.seconds + EPSILON }

  predicate Admits(w: Window, h: seq<real>, now: real) { |InUse(h, Cutoff(w, now))| < w.limit }

  /** How long a caller must wait, decided on the full history. */
  function WaitAt(w: Window, h: seq<real>, now: real): real
    requires w.Valid()
  {
    if Admits(w, h, now) then 0.0
    else MaxReal(InUse(h, Cutoff(w, now))[0] + w.seconds - now, 0.0)
  }

  /** No more than `limit` grants in any stretch of the window's length, to within the tolerance. */
  ghost predicate Spaced(w: Window, h: seq<real>) {
    forall j, k :: 0 <= j < k < |h| && k - j >= w.limit ==> h[k] - h[j] >= w.seconds - EPSILON
  }

  /** What a limit promises of the calls it let through: any two of them `perSecond` apart are a second
      apart, and so on for the minute and the hour, to within a microsecond. */
  ghost predicate Keeps(limit: RateLimit, h: seq<real>) {
    && (forall j, k :: 0 <= j < k < |h| && k - j >= limit.perSecond ==> h[k] - h[j] >= 1.0 - 0.000001)
    && (limit.perMinute.Some? ==>
          forall j, k :: 0 <= j < k < |h| && k - j >= limit.perMinute.value ==> h[k] - h[j] >= 60.0 - 0.000001)
    && (limit.perHour.Some? ==>
          forall j, k :: 0 <= j < k < |h| && k - j >= limit.perHour.value ==> h[k] - h[j] >= 3600.0 - 0.000001)
  }

  /** The windows say what the limit says: every cap that is set is enforced, and nothing else is. */
  lemma WindowsAreTheCaps(limit: RateLimit, h: seq<real>)
    ensures Keeps(limit, h) <==> forall w :: w in limit.Windows() ==> Spaced(w, h)
  {
    var second := Window(limit.perSecond, 1.0);
    assert second in limit.Windows();
    if limit.perMinute.Some? {
      assert Window(limit.perMinute.value, 60.0) in limit.Windows();
    }
    if limit.perHour.Some? {
      assert Window(limit.perHour.value, 3600.0) in limit.Windows();
    }
  }

  /** In an ordered history the grants in use are its last ones. */
  lemma {:induction false} InUseIsTail(h: seq<real>, cutoff: real, n: nat)
    requires n <= |h|
    requires forall k :: 0 <= k < n ==> h[k] <= cutoff
    requires forall k :: n <= k < |h| ==> h[k] > cutoff
    ensures InUse(h, cutoff) == h[n..]
  {
    hide InUse;
    if h == [] {
      NoneInUse(cutoff);
    } else {
      var m := |h| - 1;
      var front, last := h[..m], h[m];
      assert h == front + [last];
      InUseOneMore(front, last, cutoff);
      if n == |h| {
        InUseIsTail(front, cutoff, m);
      } else {
        InUseIsTail(front, cutoff, n);
        assert h[n..] == front[n..] + [last];
      }
    }
  }

  lemma NoneInUse(cutoff: real)
    ensures InUse([], cutoff) == []
  {
  }

  lemma InUseOneMore(h: seq<real>, g: real, cutoff: real)
    ensures InUse(h + [g], cutoff) == InUse(h, cutoff) + if g > cutoff then [g] else []
  {
    assert (h + [g])[..|h|] == h;
  }

  lemma FirstLeftDecides(h: seq<real>, cutoff: real, n: nat)
    requires Ordered(h) && n <= |h| && (forall k :: 0 <= k < n ==> h[k] <= cutoff)
    requires h[n..] == [] || h[n..][0] > cutoff
    ensures InUse(h, cutoff) == h[n..]
  {
    hide InUse;
    InUseIsTail(h, cutoff, n);
  }

  /** Where the grants in use begin. */
  function Expired(h: seq<real>, cutoff: real): (n: nat)
    requires Ordered(h)
    ensures n <= |h| && (forall k :: 0 <= k < n ==> h[k] <= cutoff) && forall k :: n <= k < |h| ==> h[k] > cutoff
  {
    if h == [] then 0
    else if h[|h| - 1] <= cutoff then |h|
    else Expired(h[..|h| - 1], cutoff)
  }

  lemma LaterExpiresMore(h: seq<real>, early: real, late: real)
    requires Ordered(h) && early <= late
    ensures Expired(h, early) <= Expired(h, late)
  {
  }

  /** A full window never asks for no wait, and never for longer than its length. */
  lemma FullMeansWait(w: Window, h: seq<real>, now: real)
    requires w.Valid() && Ordered(h) && forall g :: g in h ==> g <= now
    ensures !Admits(w, h, now) <==> WaitAt(w, h, now) > 0.0
    ensures !Admits(w, h, now) ==> EPSILON < WaitAt(w, h, now) <= w.seconds
  {
    var n := Expired(h, Cutoff(w, now));
    InUseIsTail(h, Cutoff(w, now), n);
    if !Admits(w, h, now) {
      assert h[n] == InUse(h, Cutoff(w, now))[0] && h[n] in h;
    }
  }

  lemma TooOld(w: Window, h: seq<real>, now: real, j: nat)
    requires w.Valid() && Spaced(w, h) && j + w.limit < |h| && forall g :: g in h ==> g <= now
    ensures h[j] <= Cutoff(w, now)
  {
    assert h[j + w.limit] in h;
  }

  /** A spaced history never has more grants in use than the cap. */
  lemma NeverOverfull(w: Window, h: seq<real>, now: real)
    requires w.Valid() && Ordered(h) && Spaced(w, h) && forall g :: g in h ==> g <= now
    ensures |InUse(h, Cutoff(w, now))| <= w.limit
  {
    var n := Expired(h, Cutoff(w, now));
    InUseIsTail(h, Cutoff(w, now), n);
    if |h| - n > w.limit {
      TooOld(w, h, now, n);
      assert false;
    }
  }

  /** The wait is exact: from that instant on the window admits a call, and more than the tolerance
      before it a call would break the cap. */
  lemma WaitIsExact(w: Window, h: seq<real>, now: real, t: real)
    requires w.Valid() && Ordered(h) && (forall g :: g in h ==> g <= now) && t >= now && Spaced(w, h)
    ensures t >= now + WaitAt(w, h, now) ==> Admits(w, h, t)
    ensures t < now + WaitAt(w, h, now) - EPSILON ==> !Admits(w, h, t) && !Spaced(w, h + [t])
  {
    NeverOverfull(w, h, now);
    var n, m := Expired(h, Cutoff(w, now)), Expired(h, Cutoff(w, t));
    InUseIsTail(h, Cutoff(w, now), n);
    InUseIsTail(h, Cutoff(w, t), m);
    LaterExpiresMore(h, Cutoff(w, now), Cutoff(w, t));
    if !Admits(w, h, now) {
      FullMeansWait(w, h, now);
      assert n + w.limit == |h|;
      if t < now + WaitAt(w, h, now) - EPSILON {
        assert h[n] > Cutoff(w, t);
        assert m == n;
        assert (h + [t])[n + w.limit] == t && (h + [t])[n] == h[n];
      }
    }
  }

  /** A window has room exactly when one more call would not break its cap. */
  lemma AdmitsIffFits(w: Window, h: seq<real>, t: real)
    requires w.Valid() && Ordered(h) && Spaced(w, h) && forall g :: g in h ==> g <= t
    ensures Admits(w, h, t) <==> Spaced(w, h + [t])
  {
    NeverOverfull(w, h, t);
    var n := Expired(h, Cutoff(w, t));
    InUseIsTail(h, Cutoff(w, t), n);
    if Admits(w, h, t) {
      GrantFits(w, h, n, t);
    } else {
      assert n + w.limit == |h| && h[n] > Cutoff(w, t);
      assert (h + [t])[n + w.limit] == t && (h + [t])[n] == h[n];
    }
  }

  lemma GrantFits(w: Window, h: seq<real>, n: nat, now: real)
    requires w.Valid() && Ordered(h) && Spaced(w, h) && (forall g :: g in h ==> g <= now)
    requires n <= |h| && |h| - n < w.limit && forall k :: 0 <= k < n ==> h[k] <= Cutoff(w, now)
    ensures Ordered(h + [now]) && Spaced(w, h + [now])
  {
    assert forall k :: 0 <= k < |h| ==> h[k] in h;
    forall j, k | 0 <= j < k < |h| + 1 && k - j >= w.limit
      ensures (h + [now])[k] - (h + [now])[j] >= w.seconds - EPSILON
    {
      assert k < |h| ==> h[k] - h[j] >= w.seconds - EPSILON;
    }
  }

  // ---- one window ------------------------------------------------------------------------

  class SlidingWindow {
    const window: Window
    var grants: seq<real>

    /** Every grant ever recorded, and the latest instant this window has been asked about. */
    ghost var history: seq<real>
    ghost var seen: real

    ghost predicate Valid()
      reads this
    {
      && window.Valid() && Ordered(history) && Spaced(window, history)
      && (forall g :: g in history ==> g <= seen)
      && |grants| <= |history| && |grants| <= window.limit
      && grants == history[|history| - |grants|..]
      && forall k :: 0 <= k < |history| - |grants| ==> history[k] <= Cutoff(window, seen)
    }

    constructor (window: Window)
      requires window.Valid()
      ensures Valid() && this.window == window && history == [] && seen == 0.0
    {
      this.window, grants, history, seen := window, [], [], 0.0;
    }

    /** Forget what has aged out; then the queue is exactly what the full history still counts. */
    method WaitTime(now: real) returns (wait: real)
      requires Valid() && now >= seen
      modifies this
      ensures Valid() && history == old(history) && seen == now
      ensures wait == WaitAt(window, history, now)
      ensures grants == InUse(history, Cutoff(window, now))
    {
      hide Spaced, Ordered, InUse;
      var cutoff := now - window.seconds + EPSILON;
      while grants != [] && grants[0] <= cutoff
        invariant history == old(history) && seen == old(seen)
        invariant |grants| <= |history| && |grants| <= window.limit
        invariant grants == history[|history| - |grants|..]
        invariant forall k :: 0 <= k < |history| - |grants| ==> history[k] <= cutoff
        decreases |grants|
      {
        grants := grants[1..];
      }
      seen := now;
      FirstLeftDecides(history, cutoff, |history| - |grants|);
      if |grants| < window.limit {
        return 0.0;
      }
      return MaxReal(grants[0] + window.seconds - now, 0.0);
    }

    method Record(now: real)
      requires Valid() && now >= seen && |grants| < window.limit
      modifies this
      ensures Valid() && history == old(history) + [now] && seen == now
    {
      hide Spaced, Ordered;
      ghost var n := |history| - |grants|;
      GrantFits(window, history, n, now);
      assert (history + [now])[n..] == history[n..] + [now];
      grants, history, seen := grants + [now], history + [now], now;
    }
  }

  // ---- a group of windows ----------------------------------------------------------------

  /** The injected clock and sleeper: time passes between readings by whatever `drift` says, and a
      sleep lasts at least as long as asked. */
  class Elapsed {
    const drift: nat -> real
    var now: real
    var readings: nat

    constructor (drift: nat -> real)
      ensures now == 0.0 && this.drift == drift
    {
      this.drift, now, readings := drift, 0.0, 0;
    }

    method Read() returns (t: real)
      modifies this
      ensures t == now >= old(now)
    {
      now, readings := now + MaxReal(drift(readings), 0.0), readings + 1;
      return now;
    }

    method Sleep(seconds: real)
      requires seconds >= 0.0
      modifies this
      ensures now >= old(now) + seconds
    {
      now, readings := now + seconds + MaxReal(drift(readings), 0.0), readings + 1;
    }
  }

  class GroupLimiter {
    const windows: seq<SlidingWindow>
    ghost const limit: RateLimit

    /** Every grant of the group. */
    ghost var history: seq<real>

    ghost predicate OfLimit() {
      && |windows| == |limit.Windows()|
      && forall k :: 0 <= k < |windows| ==> windows[k].window == limit.Windows()[k]
    }

    /** The windows are the limit's; each has recorded every grant, and none has been asked about a later
        instant than `now`. */
    ghost predicate Valid(now: real)
      reads this, windows
    {
      && windows != []
      && OfLimit()
      && (forall j, k :: 0 <= j < k < |windows| ==> windows[j] != windows[k])
      && (forall k :: 0 <= k < |windows| ==>
            windows[k].Valid() && windows[k].history == history && windows[k].seen <= now)
    }

    constructor (limit: RateLimit, start: real)
      requires limit.Valid() && start >= 0.0
      ensures Valid(start) && history == [] && this.limit == limit
      ensures forall k :: 0 <= k < |windows| ==> fresh(windows[k])
    {
      hide SlidingWindow.Valid, Window.Valid;
      var made: seq<SlidingWindow> := [];
      var wanted := limit.Windows();
      for n := 0 to |wanted|
        invariant |made| == n && forall k :: 0 <= k < n ==> fresh(made[k]) && made[k].window == wanted[k]
        invariant forall k :: 0 <= k < n ==> made[k].Valid() && made[k].history == [] && made[k].seen == 0.0
        invariant forall j, k :: 0 <= j < k < n ==> made[j] != made[k]
      {
        var window := new SlidingWindow(wanted[n]);
        made := made + [window];
      }
      windows, this.limit := made, limit;
      history := [];
    }

    /** What one window asks for, at its own reading of the clock. */
    method OneWait(n: nat, clock: Elapsed, ghost since: real) returns (wait: real)
      requires Valid(clock.now) && n < |windows| && windows[n].seen <= since <= clock.now
      modifies clock, windows[n]
      ensures Valid(clock.now) && history == old(history) && clock.now >= old(clock.now) && wait >= 0.0
      ensures wait <= 0.0 ==> |windows[n].grants| < windows[n].window.limit
      ensures AdmitsFrom(n, clock.now + wait) && RefusesUntil(n, clock.now, clock.now + wait - EPSILON)
      ensures Admits(windows[n].window, history, since) ==> wait == 0.0
    {
      hide Spaced, Ordered, InUse, WaitAt, OfLimit;
      var now := clock.Read();
      var one := windows[n];
      wait := one.WaitTime(now);
      WaitsRight(one.window, history, since, now);
    }

    /** The longest wait any window asks for. Zero means that all have room; that long after the last
        reading all would have; and more than the tolerance earlier, one would not. */
    method LongestWait(clock: Elapsed) returns (wait: real, slowest: nat)
      requires Valid(clock.now)
      modifies clock, windows
      ensures Valid(clock.now) && history == old(history) && clock.now >= old(clock.now) && wait >= 0.0
      ensures wait <= 0.0 ==> forall k :: 0 <= k < |windows| ==> |windows[k].grants| < windows[k].window.limit
      ensures AllAdmitFrom(|windows|, clock.now + wait)
      ensures wait > 0.0 ==>
                slowest < |windows| && RefusesUntil(slowest, clock.now, old(clock.now) + wait - EPSILON)
      ensures AllAdmit(old(clock.now)) ==> wait == 0.0
    {
      hide Admits, AdmitsFrom, AllAdmitFrom, AllAdmit, RefusesUntil, SlidingWindow.Valid, OfLimit;
      wait, slowest := 0.0, 0;
      NoneYet(clock.now + wait);
      for n := 0 to |windows|
        invariant Valid(clock.now) && history == old(history) && clock.now >= old(clock.now) && wait >= 0.0
        invariant wait <= 0.0 ==> forall k :: 0 <= k < n ==> |windows[k].grants| < windows[k].window.limit
        invariant AllAdmitFrom(n, clock.now + wait)
        invariant wait > 0.0 ==>
                    slowest < |windows| && RefusesUntil(slowest, clock.now, old(clock.now) + wait - EPSILON)
        invariant forall k :: n <= k < |windows| ==> windows[k].seen <= old(clock.now)
        invariant AllAdmit(old(clock.now)) ==> wait == 0.0
      {
        ghost var before := clock.now;
        var one := OneWait(n, clock, old(clock.now));
        Monotone(n, before, clock.now, wait, one, slowest, old(clock.now));
        if one > wait {
          wait, slowest := one, n;
        }
      }
    }

    lemma NoneYet(from: real)
      ensures AllAdmitFrom(0, from)
    {
    }

    /** What was known of the windows asked so far stays known when the next has answered. */
    lemma Monotone(n: nat, before: real, now: real, wait: real, one: real, slowest: nat, start: real)
      requires n < |windows| && start <= before <= now
      requires AllAdmitFrom(n, before + wait)
      requires AdmitsFrom(n, now + one) && RefusesUntil(n, now, now + one - EPSILON)
      requires wait > 0.0 ==> slowest < |windows| && RefusesUntil(slowest, before, start + wait - EPSILON)
      ensures AllAdmitFrom(n + 1, now + MaxReal(wait, one))
      ensures wait > 0.0 ==> RefusesUntil(slowest, now, start + wait - EPSILON)
      ensures RefusesUntil(n, now, start + one - EPSILON)
      ensures AllAdmit(start) ==> Admits(windows[n].window, history, start)
    {
    }

    ghost predicate AdmitsFrom(k: nat, from: real)
      requires k < |windows|
      reads this
    {
      forall t | t >= from :: Admits(windows[k].window, history, t)
    }

    ghost predicate AllAdmitFrom(n: nat, from: real)
      requires n <= |windows|
      reads this
    {
      forall k, t :: 0 <= k < n && t >= from ==> Admits(windows[k].window, history, t)
    }

    /** A call at any instant between the two would break the window's cap. */
    ghost predicate RefusesUntil(k: nat, from: real, until: real)
      requires k < |windows|
      reads this
    {
      forall t | from <= t < until :: !Admits(windows[k].window, history, t)
    }

    ghost predicate AllAdmit(t: real)
      reads this
    {
      forall k :: 0 <= k < |windows| ==> Admits(windows[k].window, history, t)
    }

    method RecordAll(stamp: real)
      requires Valid(stamp)
      requires forall k :: 0 <= k < |windows| ==> |windows[k].grants| < windows[k].window.limit
      modifies this, windows
      ensures Valid(stamp) && history == old(history) + [stamp]
    {
      hide SlidingWindow.Valid, OfLimit;
      history := history + [stamp];
      for n := 0 to |windows|
        invariant history == old(history) + [stamp]
        invariant forall j, k :: 0 <= j < k < |windows| ==> windows[j] != windows[k]
        invariant forall k :: 0 <= k < |windows| ==> windows[k].Valid() && windows[k].seen <= stamp
        invariant forall k :: 0 <= k < n ==> windows[k].history == history
        invariant forall k :: n <= k < |windows| ==>
                    windows[k].history == old(history) && |windows[k].grants| < windows[k].window.limit
      {
        windows[n].Record(stamp);
      }
    }

    /** Every cap of the limit has been kept so far. */
    lemma CapsKept(now: real)
      requires Valid(now)
      ensures Keeps(limit, history)
    {
      hide Spaced, Ordered, Keeps;
      forall w | w in limit.Windows() ensures Spaced(w, history) {
        var k :| 0 <= k < |windows| && limit.Windows()[k] == w;
        assert windows[k].Valid();
      }
      WindowsAreTheCaps(limit, history);
    }

    /** All windows have room exactly when one more call would keep every cap of the limit. */
    lemma RoomIff(now: real)
      requires Valid(now)
      ensures AllAdmit(now) <==> Keeps(limit, history + [now])
    {
      hide Spaced, Ordered, Keeps, Admits;
      WindowsAreTheCaps(limit, history + [now]);
      forall k | 0 <= k < |windows|
        ensures Admits(windows[k].window, history, now) <==> Spaced(windows[k].window, history + [now])
      {
        assert windows[k].Valid();
        AdmitsIffFits(windows[k].window, history, now);
      }
      assert forall k :: 0 <= k < |windows| ==> windows[k].window in limit.Windows();
      if AllAdmit(now) {
        forall w | w in limit.Windows() ensures Spaced(w, history + [now]) {
          var k :| 0 <= k < |windows| && limit.Windows()[k] == w;
          assert Admits(windows[k].window, history, now);
        }
      }
    }

    /** Wait until every window has room, then record the call in all of them. One full sleep is
        always enough, so it ends; no cap of the limit is ever broken; and a call that would break none
        when it is made does not wait. */
    method Acquire(clock: Elapsed) returns (sleeps: nat)
      requires Valid(clock.now)
      modifies this, windows, clock
      ensures Valid(clock.now) && sleeps <= 1
      ensures exists g :: old(clock.now) <= g <= clock.now && history == old(history) + [g]
      ensures Keeps(limit, history)
      ensures Keeps(limit, old(history) + [old(clock.now)]) ==> sleeps == 0
      ensures forall k :: 0 <= k < |windows| ==> |windows[k].grants| <= windows[k].window.limit
    {
      hide Admits, Spaced, RefusesUntil, Keeps, Ordered, OfLimit;
      RoomIff(clock.now);
      sleeps := 0;
      while true
        invariant Valid(clock.now) && history == old(history) && clock.now >= old(clock.now)
        invariant sleeps <= 1 && (sleeps == 1 ==> AllAdmit(clock.now))
        invariant AllAdmit(old(clock.now)) ==> sleeps == 0 && (old(clock.now) == clock.now)
        decreases 1 - sleeps
      {
        var wait, slowest := LongestWait(clock);
        if wait <= 0.0 {
          var stamp := clock.Read();
          RecordAll(stamp);
          CapsKept(clock.now);
          return;
        }
        clock.Sleep(wait);
        sleeps := sleeps + 1;
      }
    }
  }

  /** The wait asked for at `now`, by a caller who could also have asked a little before. */
  lemma WaitsRight(w: Window, h: seq<real>, before: real, now: real)
    requires w.Valid() && Ordered(h) && (forall g :: g in h ==> g <= before) && before <= now && Spaced(w, h)
    ensures WaitAt(w, h, now) >= 0.0 && (WaitAt(w, h, now) <= 0.0 ==> Admits(w, h, now))
    ensures forall t | t >= now + WaitAt(w, h, now) :: Admits(w, h, t)
    ensures forall t | now <= t < now + WaitAt(w, h, now) - EPSILON :: !Admits(w, h, t)
    ensures Admits(w, h, before) ==> WaitAt(w, h, now) == 0.0
  {
    hide Spaced, Ordered, InUse;
    FullMeansWait(w, h, now);
    FullMeansWait(w, h, before);
    WaitIsExact(w, h, before, now);
    forall t | t >= now
      ensures t >= now + WaitAt(w, h, now) ==> Admits(w, h, t)
      ensures t < now + WaitAt(w, h, now) - EPSILON ==> !Admits(w, h, t)
    {
      WaitIsExact(w, h, now, t);
    }
  }
}
