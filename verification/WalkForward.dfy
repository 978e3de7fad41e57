/** Walk-forward windows: planning them, checking them, and claiming each test period once. */
module WalkForward {
  import opened Basics

  datatype Mode = ROLLING | ANCHORED

  datatype Span = Span(start: int, end: int) {
    predicate Valid() { start < end }
  }

  datatype Window = Window(index: nat, train: Span, test: Span) {
    predicate Valid() { train.Valid() && test.Valid() && train.end <= test.start }
  }

  datatype PlanError = NOT_POSITIVE | NEGATIVE_EMBARGO | TESTS_OVERLAP | SPAN_TOO_SHORT | BAD_SPAN | LEAKAGE
                     | NO_WINDOWS | SCORED_TWICE

  /** `FeedWindow` and `WalkForwardWindow` refuse what they must never hold. */
  function MakeSpan(start: int, end: int): Result<Span, PlanError> {
    if start >= end then Err(BAD_SPAN) else Ok(Span(start, end))
  }

  function MakeWindow(index: nat, train: Span, test: Span): Result<Window, PlanError> {
    if test.start < train.end then Err(LEAKAGE) else Ok(Window(index, train, test))
  }

  /** The terms of a plan, all spans of time. */
  datatype Terms = Terms(mode: Mode, start: int, end: int, train: int, test: int, step: int, embargo: int) {
    predicate Valid() { train > 0 && test > 0 && embargo >= 0 && step >= test }

    function Nth(k: nat): Window {
      var trainEnd := start + train + k * step;
      Window(k, Span(if mode.ANCHORED? then start else trainEnd - train, trainEnd),
             Span(trainEnd + embargo, trainEnd + embargo + test))
    }

    /** Room left once the first window is placed. */
    function Slack(): int { end - start - train - embargo - test }

    /** How many windows fit. */
    function Count(): nat
      requires Valid()
    {
      if Slack() < 0 then 0 else Slack() / step + 1
    }

    /** A window fits exactly when it is one of the first Count() ones. */
    lemma FitsExactly(k: nat)
      requires Valid()
      ensures Nth(k).test.end <= end <==> k < Count()
    {
      assert Nth(k).test.end <= end <==> k * step <= Slack();
      if Slack() >= 0 {
        Divides(k, Slack(), step);
      } else {
        Times(0, k, step);
      }
    }
  }

  lemma Divides(k: nat, slack: nat, step: int)
    requires step > 0
    ensures k * step <= slack <==> k <= slack / step
  {
    var q := slack / step;
    assert q * step <= slack < q * step + step;
    if k <= q {
      Times(k, q, step);
    } else {
      Times(q + 1, k, step);
      assert (q + 1) * step == q * step + step;
    }
  }

  lemma Times(a: nat, b: nat, step: int)
    requires a <= b && step > 0
    ensures a * step <= b * step
  {
    assert b * step - a * step == (b - a) * step;
  }

  function Planned(t: Terms, n: nat): (windows: seq<Window>)
    ensures |windows| == n && forall k :: 0 <= k < n ==> windows[k] == t.Nth(k)
  {
    seq(n, k requires 0 <= k => t.Nth(k))
  }

  /** Every window that fits, and exactly those; no constructor's refusal is ever met. */
  method Plan(mode: Mode, start: int, end: int, train: int, test: int, step: Option<int>, embargo: int)
    returns (r: Result<seq<Window>, PlanError>)
    ensures var t := Terms(mode, start, end, train, test, if step.Some? then step.value else test, embargo);
            r == if train <= 0 || test <= 0 || t.step <= 0 then Err(NOT_POSITIVE)
                 else if embargo < 0 then Err(NEGATIVE_EMBARGO)
                 else if t.step < test then Err(TESTS_OVERLAP)
                 else if t.Count() == 0 then Err(SPAN_TOO_SHORT)
                 else Ok(Planned(t, t.Count()))
  {
    var stride := if step.Some? then step.value else test;
    if train <= 0 || test <= 0 || stride <= 0 {
      return Err(NOT_POSITIVE);
    }
    if embargo < 0 {
      return Err(NEGATIVE_EMBARGO);
    }
    if stride < test {
      return Err(TESTS_OVERLAP);
    }
    ghost var t := Terms(mode, start, end, train, test, stride, embargo);
    var windows: seq<Window> := [];
    var trainEnd := start + train;
    while trainEnd + embargo + test <= end
      invariant trainEnd == start + train + |windows| * stride
      invariant windows == Planned(t, |windows|) && |windows| <= t.Count()
      decreases end - trainEnd
    {
      t.FitsExactly(|windows|);
      var testStart := trainEnd + embargo;
      var trainStart := if mode.ANCHORED? then start else trainEnd - train;
      Times(0, |windows|, stride);
      var window := MakeWindow(|windows|, MakeSpan(trainStart, trainEnd).value,
                               MakeSpan(testStart, testStart + test).value);
      assert window.value == t.Nth(|windows|);
      assert (|windows| + 1) * stride == |windows| * stride + stride;
      windows := windows + [window.value];
      trainEnd := trainEnd + stride;
    }
    t.FitsExactly(|windows|);
    if windows == [] {
      return Err(SPAN_TOO_SHORT);
    }
    return Ok(windows);
  }

  // ---- what a plan promises --------------------------------------------------------------

  /** Consecutive test periods do not overlap. */
  ghost predicate Adjacent(windows: seq<Window>) {
    forall k :: 0 < k < |windows| ==> windows[k - 1].test.end <= windows[k].test.start
  }

  /** Every planned window lies in the span, keeps the embargo and is sound; and the sequence passes
      the check made before a run. */
  lemma PlanIsSound(t: Terms)
    requires t.Valid()
    ensures var windows := Planned(t, t.Count());
            && Adjacent(windows)
            && forall k :: 0 <= k < |windows| ==>
                 var w := windows[k];
                 && w.Valid() && w.index == k
                 && t.start <= w.train.start && w.test.end <= t.end
                 && w.test.start - w.train.end == t.embargo && w.test.end - w.test.start == t.test
                 && (t.mode.ROLLING? ==> w.train.end - w.train.start == t.train)
                 && (t.mode.ANCHORED? ==> w.train.start == t.start)
  {
    var windows := Planned(t, t.Count());
    forall k | 0 <= k < |windows|
      ensures windows[k].Valid() && t.start <= windows[k].train.start && windows[k].test.end <= t.end
    {
      t.FitsExactly(k);
      Times(0, k, t.step);
    }
    forall k | 0 < k < |windows| ensures windows[k - 1].test.end <= windows[k].test.start {
      assert k * t.step == (k - 1) * t.step + t.step;
    }
  }

  /** Nothing is left out: the first window begins with the data, each is one step after the last, and another
      would run past the end; there is none exactly when not even one fits. */
  lemma PlanIsFull(t: Terms)
    requires t.Valid()
    ensures var windows := Planned(t, t.Count());
            var n := |windows|;
            && (n == 0 <==> t.start + t.train + t.embargo + t.test > t.end)
            && (n > 0 ==>
                  && windows[0].train == Span(t.start, t.start + t.train)
                  && windows[n - 1].test.end + t.step > t.end)
            && forall k :: 0 < k < n ==> windows[k].test.start == windows[k - 1].test.start + t.step
  {
    var n := t.Count();
    t.FitsExactly(0);
    t.FitsExactly(n);
    forall k: nat ensures t.Nth(k + 1).test.start == t.Nth(k).test.start + t.step {
      assert (k + 1) * t.step == k * t.step + t.step;
    }
    if n > 0 {
      assert t.Nth(n - 1 + 1).test.start == t.Nth(n - 1).test.start + t.step;
    }
  }

  /** With the default step the test periods tile the data: each begins where the last one ended. */
  lemma DefaultStepTiles(t: Terms, k: nat)
    requires t.Valid() && t.step == t.test
    ensures t.Nth(k + 1).test.start == t.Nth(k).test.end
  {
    assert (k + 1) * t.step == k * t.step + t.step;
  }

  // ---- the sequence check ----------------------------------------------------------------

  method Verify(windows: seq<Window>) returns (error: Option<PlanError>)
    ensures error == None <==> windows != [] && Adjacent(windows)
    ensures error.Some? ==> error.value == if windows == [] then NO_WINDOWS else LEAKAGE
  {
    if windows == [] {
      return Some(NO_WINDOWS);
    }
    for k := 1 to |windows|
      invariant forall j :: 0 < j < k ==> windows[j - 1].test.end <= windows[j].test.start
    {
      if windows[k].test.start < windows[k - 1].test.end {
        return Some(LEAKAGE);
      }
    }
    return None;
  }

  /** The check compares neighbours only, yet no two test periods overlap at all. */
  lemma {:induction false} NeighboursAreEnough(windows: seq<Window>, j: nat, k: nat)
    requires Adjacent(windows) && j < k < |windows|
    requires forall n :: 0 <= n < |windows| ==> windows[n].test.Valid()
    ensures windows[j].test.end <= windows[k].test.start && windows[j].test != windows[k].test
    decreases k
  {
    if j < k - 1 {
      NeighboursAreEnough(windows, j, k - 1);
    }
  }

  // ---- claiming --------------------------------------------------------------------------

  class ScoredWindows {
    var claimed: set<Span>

    constructor ()
      ensures claimed == {}
    {
      claimed := {};
    }

    method Claim(test: Span) returns (error: Option<PlanError>)
      modifies this
      ensures error == if test in old(claimed) then Some(SCORED_TWICE) else None
      ensures claimed == old(claimed) + {test}
    {
      if test in claimed {
        return Some(SCORED_TWICE);
      }
      claimed := claimed + {test};
      return None;
    }
  }

  /** After the check, claiming every test period once meets no refusal. */
  method ClaimAll(windows: seq<Window>, ledger: ScoredWindows) returns (error: Option<PlanError>)
    requires ledger.claimed == {} && Adjacent(windows)
    requires forall k :: 0 <= k < |windows| ==> windows[k].test.Valid()
    modifies ledger
    ensures error == None
    ensures ledger.claimed == set k | 0 <= k < |windows| :: windows[k].test
  {
    for n := 0 to |windows|
      invariant ledger.claimed == set k | 0 <= k < n :: windows[k].test
    {
      forall j | 0 <= j < n ensures windows[j].test != windows[n].test {
        NeighboursAreEnough(windows, j, n);
      }
      error := ledger.Claim(windows[n].test);
      assert error == None;
    }
    return None;
  }
}
