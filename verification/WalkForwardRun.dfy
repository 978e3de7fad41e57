/** Walk-forward: tune on every training window, then score every test window once with its choice. */
module WalkForwardRun {
  import opened Basics
  import opened WalkForward
  import opened Batch

  datatype Candidate = Candidate(name: string, values: string)

  /** One backtest: the base configuration with a candidate's values, on one window. */
  datatype Spec = Spec(candidate: Candidate, window: Span)

  datatype TrainingScore = TrainingScore(candidate: Candidate, score: Option<real>)

  datatype WindowOutcome<R> = WindowOutcome(
    window: Window, training: seq<TrainingScore>, chosen: Candidate, test: R, testScore: Option<real>)

  datatype RunError = BadCandidates | BadWindows(why: PlanError) | BadParameters | TrainingFailed
                    | NoViableCandidate | ScoredTwice | TestFailed

  // ---- choosing --------------------------------------------------------------------------

  /** The candidates that could be scored, in their order. */
  function Scored(scores: seq<TrainingScore>): (s: seq<TrainingScore>)
    ensures forall t :: t in s ==> t.score.Some?
  {
    if scores == [] then []
    else
      Scored(scores[..|scores| - 1]) + if scores[|scores| - 1].score.Some? then [scores[|scores| - 1]] else []
  }

  /** The entry a later one must beat. */
  function Best(scores: seq<TrainingScore>): (best: Option<TrainingScore>)
    ensures best.Some? ==> best.value.score.Some?
  {
    if scores == [] then None
    else
      var best, last := Best(scores[..|scores| - 1]), scores[|scores| - 1];
      if last.score.Some? && (best.None? || last.score.value > best.value.score.value) then Some(last) else best
  }

  /** The first of those with the highest score. */
  ghost predicate FirstBest(scores: seq<TrainingScore>, k: nat) {
    && k < |scores| && scores[k].score.Some?
    && (forall j :: 0 <= j < |scores| && scores[j].score.Some? ==> scores[j].score.value <= scores[k].score.value)
    && (forall j :: 0 <= j < k && scores[j].score.Some? ==> scores[j].score.value < scores[k].score.value)
  }

  lemma {:induction false} BestIsFirstBest(scores: seq<TrainingScore>) returns (k: nat)
    ensures Best(scores).None? <==> forall j :: 0 <= j < |scores| ==> scores[j].score.None?
    ensures Best(scores).Some? ==> FirstBest(scores, k) && Best(scores) == Some(scores[k])
  {
    k := 0;
    if scores != [] {
      var front := scores[..|scores| - 1];
      k := BestIsFirstBest(front);
      assert forall j :: 0 <= j < |front| ==> scores[j] == front[j];
      if Best(scores) != Best(front) {
        k := |scores| - 1;
      }
    }
  }

  lemma {:induction false} UnscoredDoNotMatter(scores: seq<TrainingScore>)
    ensures Best(Scored(scores)) == Best(scores)
  {
    if scores != [] {
      var front, last := scores[..|scores| - 1], scores[|scores| - 1];
      UnscoredDoNotMatter(front);
      if last.score.Some? {
        assert (Scored(front) + [last])[..|Scored(front)|] == Scored(front);
      } else {
        assert Scored(front) + [] == Scored(front);
      }
    }
  }

  /** `BestScoreSelector.select`. */
  method Select(scores: seq<TrainingScore>) returns (r: Result<Candidate, RunError>)
    ensures r == match Best(scores) case None => Err(NoViableCandidate) case Some(best) => Ok(best.candidate)
  {
    UnscoredDoNotMatter(scores);
    var scored := Scored(scores);
    if scored == [] {
      return Err(NoViableCandidate);
    }
    var best := scored[0];
    for k := 1 to |scored|
      invariant best.score.Some? && Best(scored[..k]) == Some(best)
    {
      assert scored[..k + 1][..k] == scored[..k];
      var challenger := scored[k];
      assert challenger in scored;
      if challenger.score.value > best.score.value {
        best := challenger;
      }
    }
    assert scored[..|scored|] == scored;
    return Ok(best.candidate);
  }

  // ---- flattening and regrouping ---------------------------------------------------------

  function Pairs(windows: seq<Window>, candidates: seq<Candidate>): seq<(Window, Candidate)> {
    if windows == [] then [] else Row(windows[0], candidates) + Pairs(windows[1..], candidates)
  }

  function Row(w: Window, candidates: seq<Candidate>): (row: seq<(Window, Candidate)>)
    ensures |row| == |candidates| && forall k :: 0 <= k < |row| ==> row[k] == (w, candidates[k])
  {
    seq(|candidates|, k requires 0 <= k < |candidates| => (w, candidates[k]))
  }

  /** Cut a flat list into rows of the given width. */
  function Regroup<T>(flat: seq<T>, width: nat): seq<seq<T>>
    requires width > 0
    decreases |flat|
  {
    if flat == [] then []
    else [flat[..Min(width, |flat|)]] + Regroup(flat[Min(width, |flat|)..], width)
  }

  function ScoreOf<R>(w: Span, c: Candidate, run: Spec -> Result<R, string>, score: R -> Option<real>): TrainingScore {
    match run(Spec(c, w))
    case Ok(result) => TrainingScore(c, score(result))
    case Err(_) => TrainingScore(c, None)
  }

  /** Every candidate's score on one window's own training data. */
  function TrainingOf<R>(w: Window, candidates: seq<Candidate>, run: Spec -> Result<R, string>,
                         score: R -> Option<real>): (t: seq<TrainingScore>)
    ensures |t| == |candidates|
    ensures forall k :: 0 <= k < |t| ==> t[k] == ScoreOf(w.train, candidates[k], run, score)
  {
    seq(|candidates|, k requires 0 <= k < |candidates| => ScoreOf(w.train, candidates[k], run, score))
  }

  function AllTraining<R>(windows: seq<Window>, candidates: seq<Candidate>, run: Spec -> Result<R, string>,
                          score: R -> Option<real>): (t: seq<seq<TrainingScore>>)
    ensures |t| == |windows|
    ensures forall k :: 0 <= k < |t| ==> t[k] == TrainingOf(windows[k], candidates, run, score)
  {
    seq(|windows|, k requires 0 <= k < |windows| => TrainingOf(windows[k], candidates, run, score))
  }

  function PairScores<R>(pairs: seq<(Window, Candidate)>, run: Spec -> Result<R, string>, score: R -> Option<real>)
    : (s: seq<TrainingScore>)
    ensures |s| == |pairs|
    ensures forall k :: 0 <= k < |s| ==> s[k] == ScoreOf(pairs[k].0.train, pairs[k].1, run, score)
  {
    seq(|pairs|, k requires 0 <= k < |pairs| => ScoreOf(pairs[k].0.train, pairs[k].1, run, score))
  }

  /** Flattened, scored in one batch and cut up again, every window has its own candidates' scores. */
  lemma {:induction false} RegroupingIsRight<R>(
    windows: seq<Window>, candidates: seq<Candidate>, run: Spec -> Result<R, string>, score: R -> Option<real>)
    requires candidates != []
    ensures Regroup(PairScores(Pairs(windows, candidates), run, score), |candidates|)
         == AllTraining(windows, candidates, run, score)
  {
    if windows != [] {
      var width := |candidates|;
      var row, rest := Row(windows[0], candidates), Pairs(windows[1..], candidates);
      var flat := PairScores(Pairs(windows, candidates), run, score);
      assert flat[..width] == TrainingOf(windows[0], candidates, run, score);
      assert flat[width..] == PairScores(rest, run, score);
      RegroupingIsRight(windows[1..], candidates, run, score);
      assert AllTraining(windows, candidates, run, score)
          == [TrainingOf(windows[0], candidates, run, score)] + AllTraining(windows[1..], candidates, run, score);
    } else {
      assert AllTraining(windows, candidates, run, score) == [];
    }
  }

  /** The pairs are every window with every candidate. */
  lemma {:induction false} PairsAreAll(windows: seq<Window>, candidates: seq<Candidate>)
    ensures forall p :: p in Pairs(windows, candidates) <==> p.0 in windows && p.1 in candidates
  {
    if windows != [] {
      var row := Row(windows[0], candidates);
      PairsAreAll(windows[1..], candidates);
      assert windows == [windows[0]] + windows[1..];
      forall p: (Window, Candidate) | p.0 == windows[0] && p.1 in candidates ensures p in row {
        var k :| 0 <= k < |candidates| && candidates[k] == p.1;
        assert row[k] == p;
      }
    }
  }

  // ---- the run ---------------------------------------------------------------------------

  ghost predicate NamedOnce(candidates: seq<Candidate>) {
    forall j, k :: 0 <= j < k < |candidates| ==> candidates[j].name != candidates[k].name
  }

  ghost predicate Trains<R>(windows: seq<Window>, candidates: seq<Candidate>, run: Spec -> Result<R, string>) {
    forall w, c :: w in windows && c in candidates ==> run(Spec(c, w.train)).Ok?
  }

  ghost predicate Viable<R>(windows: seq<Window>, candidates: seq<Candidate>, run: Spec -> Result<R, string>,
                            score: R -> Option<real>)
  {
    forall k :: 0 <= k < |windows| ==> Best(TrainingOf(windows[k], candidates, run, score)).Some?
  }

  /** What each window is to be tested with. */
  ghost function Choices<R>(windows: seq<Window>, candidates: seq<Candidate>, run: Spec -> Result<R, string>,
                            score: R -> Option<real>): (chosen: seq<Candidate>)
    requires Viable(windows, candidates, run, score)
    ensures |chosen| == |windows|
    ensures forall k :: 0 <= k < |windows| ==>
              chosen[k] == Best(TrainingOf(windows[k], candidates, run, score)).value.candidate
  {
    seq(|windows|, k requires 0 <= k < |windows| =>
        Best(TrainingOf(windows[k], candidates, run, score)).value.candidate)
  }

  /** The whole run, as a reader would describe it: no batches, no flattening, no ledger. `applies` says
      which candidates the base configuration accepts. */
  ghost predicate IsWalkForward<R>(
    r: Result<seq<WindowOutcome<R>>, RunError>, candidates: seq<Candidate>, windows: seq<Window>,
    applies: Candidate -> bool, run: Spec -> Result<R, string>, score: R -> Option<real>)
  {
    if candidates == [] || !NamedOnce(candidates) then r == Err(BadCandidates)
    else if windows == [] then r == Err(BadWindows(NO_WINDOWS))
    else if !Adjacent(windows) then r == Err(BadWindows(LEAKAGE))
    else if exists c :: c in candidates && !applies(c) then r == Err(BadParameters)
    else if !Trains(windows, candidates, run) then r == Err(TrainingFailed)
    else if !Viable(windows, candidates, run, score) then r == Err(NoViableCandidate)
    else
      var chosen := Choices(windows, candidates, run, score);
      if exists k :: 0 <= k < |windows| && run(Spec(chosen[k], windows[k].test)).Err? then r == Err(TestFailed)
      else
        && r.Ok? && |r.value| == |windows|
        && forall k :: 0 <= k < |windows| ==>
             var test := run(Spec(chosen[k], windows[k].test)).value;
             r.value[k] == WindowOutcome(windows[k], TrainingOf(windows[k], candidates, run, score),
                                         chosen[k], test, score(test))
  }

  method CheckNames(candidates: seq<Candidate>) returns (ok: bool)
    ensures ok <==> candidates != [] && NamedOnce(candidates)
  {
    var names: set<string> := {};
    for n := 0 to |candidates|
      invariant names == set k | 0 <= k < n :: candidates[k].name
      invariant NamedOnce(candidates[..n])
    {
      if candidates[n].name in names {
        return false;
      }
      names := names + {candidates[n].name};
    }
    assert candidates[..|candidates|] == candidates;
    return candidates != [];
  }

  function TrainItems(pairs: seq<(Window, Candidate)>): (items: seq<Item<Spec>>)
    ensures |items| == |pairs|
    ensures forall k :: 0 <= k < |items| ==> items[k].spec == Spec(pairs[k].1, pairs[k].0.train)
  {
    seq(|pairs|, k requires 0 <= k < |pairs| => Item("train " + pairs[k].1.name, Spec(pairs[k].1, pairs[k].0.train)))
  }

  method CheckParameters(pairs: seq<(Window, Candidate)>, applies: Candidate -> bool) returns (fit: bool)
    ensures fit <==> forall p :: p in pairs ==> applies(p.1)
  {
    for k := 0 to |pairs|
      invariant forall p :: p in pairs[..k] ==> applies(p.1)
    {
      if !applies(pairs[k].1) {
        assert pairs[k] in pairs;
        return false;
      }
    }
    assert pairs[..|pairs|] == pairs;
    return true;
  }

  /** The configurations of all pairs are made before anything runs; one that cannot be made is raised. */
  method TrainAll<R>(candidates: seq<Candidate>, windows: seq<Window>, applies: Candidate -> bool,
                     run: Spec -> Result<R, string>, score: R -> Option<real>)
    returns (r: Result<seq<seq<TrainingScore>>, RunError>)
    requires candidates != [] && windows != []
    ensures r == if exists c :: c in candidates && !applies(c) then Err(BadParameters)
                 else if Trains(windows, candidates, run) then Ok(AllTraining(windows, candidates, run, score))
                 else Err(TrainingFailed)
  {
    var pairs := Pairs(windows, candidates);
    PairsAreAll(windows, candidates);
    var fit := CheckParameters(pairs, applies);
    assert forall c :: c in candidates ==> (windows[0], c) in pairs;
    if !fit {
      return Err(BadParameters);
    }
    var items := TrainItems(pairs);
    var outcomes, reported := SerialBatch(items, run);
    ResultsAre(items, run);
    var results := Results(outcomes);
    if results.Err? {
      var bad :| 0 <= bad < |items| && run(items[bad].spec).Err?;
      assert pairs[bad] in pairs;
      return Err(TrainingFailed);
    }
    forall w, c | w in windows && c in candidates ensures run(Spec(c, w.train)).Ok? {
      assert (w, c) in pairs;
      var k :| 0 <= k < |pairs| && pairs[k] == (w, c);
      assert run(items[k].spec).Ok?;
    }
    var scored := seq(|pairs|, k requires 0 <= k < |pairs| => TrainingScore(pairs[k].1, score(results.value[k])));
    forall k | 0 <= k < |pairs| ensures scored[k] == ScoreOf(pairs[k].0.train, pairs[k].1, run, score) {
      assert run(items[k].spec) == Ok(results.value[k]);
    }
    assert scored == PairScores(pairs, run, score);
    RegroupingIsRight(windows, candidates, run, score);
    return Ok(Regroup(scored, |candidates|));
  }

  method SelectAll(training: seq<seq<TrainingScore>>) returns (r: Result<seq<Candidate>, RunError>)
    ensures r.Ok? <==> forall k :: 0 <= k < |training| ==> Best(training[k]).Some?
    ensures r.Ok? ==>
              && |r.value| == |training|
              && forall k :: 0 <= k < |training| ==> r.value[k] == Best(training[k]).value.candidate
    ensures r.Err? ==> r.error == NoViableCandidate
  {
    var chosen: seq<Candidate> := [];
    for n := 0 to |training|
      invariant |chosen| == n
      invariant forall k :: 0 <= k < n ==> Best(training[k]).Some? && chosen[k] == Best(training[k]).value.candidate
    {
      var pick := Select(training[n]);
      if pick.Err? {
        return Err(pick.error);
      }
      chosen := chosen + [pick.value];
    }
    return Ok(chosen);
  }

  /** Every choice made its configuration once already, and makes it again. */
  method TestAll<R>(chosen: seq<Candidate>, windows: seq<Window>, run: Spec -> Result<R, string>)
    returns (r: Result<seq<R>, RunError>)
    requires |chosen| == |windows|
    ensures r.Ok? <==> forall k :: 0 <= k < |windows| ==> run(Spec(chosen[k], windows[k].test)).Ok?
    ensures r.Ok? ==>
              && |r.value| == |windows|
              && forall k :: 0 <= k < |windows| ==> run(Spec(chosen[k], windows[k].test)) == Ok(r.value[k])
    ensures r.Err? ==> r.error == TestFailed
  {
    var items := seq(|windows|, k requires 0 <= k < |windows| =>
                     Item("test " + chosen[k].name, Spec(chosen[k], windows[k].test)));
    assert forall k :: 0 <= k < |windows| ==> items[k].spec == Spec(chosen[k], windows[k].test);
    var outcomes, reported := SerialBatch(items, run);
    ResultsAre(items, run);
    var results := Results(outcomes);
    if results.Err? {
      return Err(TestFailed);
    }
    forall k | 0 <= k < |windows| ensures run(Spec(chosen[k], windows[k].test)) == Ok(results.value[k]) {
      assert run(items[k].spec) == Ok(results.value[k]);
    }
    return Ok(results.value);
  }

  /** Check, train, choose, claim, test. */
  method Run<R>(candidates: seq<Candidate>, windows: seq<Window>, applies: Candidate -> bool,
                run: Spec -> Result<R, string>, score: R -> Option<real>)
    returns (r: Result<seq<WindowOutcome<R>>, RunError>)
    requires forall w :: w in windows ==> w.Valid()
    ensures IsWalkForward(r, candidates, windows, applies, run, score)
  {
    hide Adjacent, NamedOnce, Best;
    var named := CheckNames(candidates);
    if !named {
      return Err(BadCandidates);
    }
    var bad := Verify(windows);
    if bad.Some? {
      return Err(BadWindows(bad.value));
    }
    var ledger := new ScoredWindows();
    var training := TrainAll(candidates, windows, applies, run, score);
    if training.Err? {
      return Err(training.error);
    }
    var chosen := SelectAll(training.value);
    if chosen.Err? {
      return Err(chosen.error);
    }
    assert chosen.value == Choices(windows, candidates, run, score);
    assert forall k :: 0 <= k < |windows| ==> windows[k] in windows;
    var claimed := ClaimAll(windows, ledger);
    if claimed.Some? {
      return Err(ScoredTwice);
    }
    var tests := TestAll(chosen.value, windows, run);
    if tests.Err? {
      return Err(tests.error);
    }
    var outcomes := seq(|windows|, k requires 0 <= k < |windows| =>
                        WindowOutcome(windows[k], training.value[k], chosen.value[k], tests.value[k],
                                      score(tests.value[k])));
    return Ok(outcomes);
  }

  // ---- what the choice can and cannot depend on ------------------------------------------

  /** The training result of one candidate beats that of another: only a run that finished and could be scored
      can, and only one like it can stand up to it. */
  ghost predicate Beats<R>(a: Result<R, string>, b: Result<R, string>, score: R -> Option<real>) {
    && a.Ok? && score(a.value).Some?
    && (b.Ok? && score(b.value).Some? ==> score(a.value).value > score(b.value).value)
  }

  /** Each choice is a candidate whose run on that window's own training data no other run there beats, and
      which beats the runs of all candidates named before it. */
  lemma ChoiceIsUnbeaten<R>(windows: seq<Window>, candidates: seq<Candidate>, run: Spec -> Result<R, string>,
                            score: R -> Option<real>, n: nat) returns (k: nat)
    requires Viable(windows, candidates, run, score) && n < |windows|
    ensures k < |candidates| && Choices(windows, candidates, run, score)[n] == candidates[k]
    ensures forall j :: 0 <= j < |candidates| ==>
              !Beats(run(Spec(candidates[j], windows[n].train)), run(Spec(candidates[k], windows[n].train)), score)
    ensures forall j :: 0 <= j < k ==>
              Beats(run(Spec(candidates[k], windows[n].train)), run(Spec(candidates[j], windows[n].train)), score)
  {
    k := ChoiceIsBest(windows, candidates, run, score, n);
    var t := TrainingOf(windows[n], candidates, run, score);
    forall j | 0 <= j < |candidates|
      ensures t[j].score == match run(Spec(candidates[j], windows[n].train))
                            case Ok(r) => score(r)
                            case Err(_) => None
    {
    }
  }

  /** Each choice is the first candidate with the highest score on that window's own training data. */
  lemma ChoiceIsBest<R>(windows: seq<Window>, candidates: seq<Candidate>, run: Spec -> Result<R, string>,
                        score: R -> Option<real>, n: nat) returns (k: nat)
    requires Viable(windows, candidates, run, score) && n < |windows|
    ensures k < |candidates| && Choices(windows, candidates, run, score)[n] == candidates[k]
    ensures FirstBest(TrainingOf(windows[n], candidates, run, score), k)
  {
    k := BestIsFirstBest(TrainingOf(windows[n], candidates, run, score));
  }

  /** Two backtesters that agree on the training runs choose alike, whatever they say of the tests. */
  lemma TestsCannotInfluenceChoices<R>(
    windows: seq<Window>, candidates: seq<Candidate>, run: Spec -> Result<R, string>,
    other: Spec -> Result<R, string>, score: R -> Option<real>)
    requires Viable(windows, candidates, run, score)
    requires forall w, c :: w in windows && c in candidates ==> run(Spec(c, w.train)) == other(Spec(c, w.train))
    ensures Viable(windows, candidates, other, score)
    ensures Choices(windows, candidates, run, score) == Choices(windows, candidates, other, score)
  {
    forall k | 0 <= k < |windows|
      ensures TrainingOf(windows[k], candidates, run, score) == TrainingOf(windows[k], candidates, other, score)
    {
      forall j | 0 <= j < |candidates|
        ensures run(Spec(candidates[j], windows[k].train)) == other(Spec(candidates[j], windows[k].train))
      {
        assert windows[k] in windows && candidates[j] in candidates;
      }
    }
  }
}
