/** Running independent backtests as one batch: in order, or in whatever order a pool finishes them. */
module Batch {
  import opened Basics

  /** A run's result, or the error it raised. */
  datatype Outcome<R> = Completed(title: string, result: R) | Failed(title: string, error: string)

  datatype Item<S> = Item(title: string, spec: S)

  datatype Progress<R> = Progress(done: nat, total: nat, outcome: Outcome<R>)

  function OutcomeOf<S, R>(item: Item<S>, run: S -> Result<R, string>): Outcome<R> {
    match run(item.spec)
    case Ok(result) => Completed(item.title, result)
    case Err(error) => Failed(item.title, error)
  }

  /** What every item comes to, listed as the items are. */
  function Outcomes<S, R>(items: seq<Item<S>>, run: S -> Result<R, string>): (o: seq<Outcome<R>>)
    ensures |o| == |items| && forall k :: 0 <= k < |items| ==> o[k] == OutcomeOf(items[k], run)
  {
    seq(|items|, k requires 0 <= k < |items| => OutcomeOf(items[k], run))
  }

  /** The reference: one after another. */
  method SerialBatch<S, R>(items: seq<Item<S>>, run: S -> Result<R, string>)
    returns (outcomes: seq<Outcome<R>>, reported: seq<Progress<R>>)
    ensures outcomes == Outcomes(items, run)
    ensures reported == seq(|items|, k requires 0 <= k < |items| => Progress(k + 1, |items|, OutcomeOf(items[k], run)))
  {
    outcomes, reported := [], [];
    for n := 0 to |items|
      invariant |outcomes| == |reported| == n
      invariant forall k :: 0 <= k < n ==> outcomes[k] == OutcomeOf(items[k], run)
      invariant forall k :: 0 <= k < n ==> reported[k] == Progress(k + 1, |items|, OutcomeOf(items[k], run))
    {
      outcomes := outcomes + [OutcomeOf(items[n], run)];
      reported := reported + [Progress(|outcomes|, |items|, outcomes[n])];
    }
  }

  /** Every index below `n`, each once, in some order. */
  ghost predicate Permutes(order: seq<nat>, n: nat) {
    multiset(order) == multiset(seq(n, k requires 0 <= k => k))
  }

  lemma {:induction false} PermutationReaches(order: seq<nat>, n: nat)
    requires Permutes(order, n)
    ensures |order| == n
    ensures forall i :: 0 <= i < n ==> i in order
    ensures forall k :: 0 <= k < |order| ==> order[k] < n
    ensures forall j, k :: 0 <= j < k < |order| ==> order[j] != order[k]
  {
    var all := seq(n, k requires 0 <= k => k);
    assert |multiset(order)| == |order| && |multiset(all)| == n;
    forall i | 0 <= i < n ensures i in order {
      assert all[i] == i;
      assert i in multiset(all);
    }
    forall k | 0 <= k < |order| ensures order[k] < n {
      assert order[k] in multiset(order);
      assert order[k] in all;
    }
    forall j, k | 0 <= j < k < |order| ensures order[j] != order[k] {
      if order[j] == order[k] {
        TwiceCounts(order, j, k);
        OnceCounts(n, order[j]);
        assert false;
      }
    }
  }

  lemma TwiceCounts(order: seq<nat>, j: nat, k: nat)
    requires j < k < |order| && order[j] == order[k]
    ensures multiset(order)[order[j]] >= 2
  {
    assert order == order[..j] + [order[j]] + order[j + 1..k] + [order[k]] + order[k + 1..];
  }

  lemma {:induction false} OnceCounts(n: nat, i: nat)
    ensures multiset(seq(n, k requires 0 <= k => k))[i] <= 1
  {
    if n > 0 {
      var all := seq(n, k requires 0 <= k => k);
      var front := seq(n - 1, k requires 0 <= k => k);
      assert all == front + [n - 1];
      OnceCounts(n - 1, i);
      assert n - 1 !in front;
    }
  }

  /** The pool: item `order[k]` is the `k`th to finish. When a worker dies the pool breaks, and every item
      still pending fails with it; `finished` counts the items done by then, all of them if none dies. */
  method ProcessPoolBatch<S, R(0)>(items: seq<Item<S>>, run: S -> Result<R, string>, order: seq<nat>, finished: nat)
    returns (outcomes: seq<Outcome<R>>, reported: seq<Progress<R>>)
    requires Permutes(order, |items|)
    ensures |outcomes| == |items|
    ensures finished >= |items| ==> outcomes == Outcomes(items, run)
    ensures |reported| == |items| == |order| && forall k :: 0 <= k < |order| ==> order[k] < |items|
    ensures forall k :: 0 <= k < |items| ==> outcomes[order[k]] == PoolOutcome(items, run, order, finished, k)
    ensures forall k :: 0 <= k < |items| ==> reported[k] == Progress(k + 1, |items|, outcomes[order[k]])
  {
    PermutationReaches(order, |items|);
    var filled := new Option<Outcome<R>>[|items|](_ => None);
    var done := 0;
    reported := [];
    for n := 0 to |order|
      invariant done == n == |reported| && forall k :: 0 <= k < |order| ==> order[k] < |items|
      invariant forall k :: 0 <= k < n ==> filled[order[k]] == Some(PoolOutcome(items, run, order, finished, k))
      invariant forall k :: 0 <= k < n ==>
                  reported[k] == Progress(k + 1, |items|, PoolOutcome(items, run, order, finished, k))
    {
      var index := order[n];
      filled[index] := Some(if n < finished then OutcomeOf(items[index], run)
                            else Failed(items[index].title, "worker died"));
      done := done + 1;
      reported := reported + [Progress(done, |items|, filled[index].value)];
    }
    forall i | 0 <= i < |items| ensures filled[i].Some? {
      assert i in order;
    }
    outcomes := [];
    for i := 0 to |items|
      invariant |outcomes| == i && forall j :: 0 <= j < i ==> filled[j] == Some(outcomes[j])
    {
      outcomes := outcomes + [filled[i].value];
    }
    forall i | 0 <= i < |items| && finished >= |items| ensures outcomes[i] == OutcomeOf(items[i], run) {
      assert i in order;
    }
  }

  /** How the `k`th to finish went: as its own run did, or lost with the pool. */
  function PoolOutcome<S, R>(
    items: seq<Item<S>>, run: S -> Result<R, string>, order: seq<nat>, finished: nat, k: nat): Outcome<R>
    requires k < |order| && order[k] < |items|
  {
    if k < finished then OutcomeOf(items[order[k]], run) else Failed(items[order[k]].title, "worker died")
  }

  /** In both, an item's outcome carries its own title, and its own run's result or error. */
  lemma OutcomesAreTheirOwn<S, R>(items: seq<Item<S>>, run: S -> Result<R, string>, k: nat)
    requires k < |items|
    ensures Outcomes(items, run)[k] == match run(items[k].spec)
                                       case Ok(result) => Completed(items[k].title, result)
                                       case Err(error) => Failed(items[k].title, error)
  {
  }

  // ---- what a caller that needs every run gets -------------------------------------------

  /** Every result in order, or the failures. */
  function Results<R>(outcomes: seq<Outcome<R>>): Result<seq<R>, seq<Outcome<R>>> {
    if Failures(outcomes) != [] then Err(Failures(outcomes)) else Ok(ResultsOf(outcomes))
  }

  function Failures<R>(outcomes: seq<Outcome<R>>): seq<Outcome<R>> {
    if outcomes == [] then []
    else (if outcomes[0].Failed? then [outcomes[0]] else []) + Failures(outcomes[1..])
  }

  function ResultsOf<R>(outcomes: seq<Outcome<R>>): seq<R> {
    if outcomes == [] then []
    else (if outcomes[0].Completed? then [outcomes[0].result] else []) + ResultsOf(outcomes[1..])
  }

  /** Nothing failed exactly when every item has a result, and then each is its own run's. */
  lemma {:induction false} ResultsAre<S, R>(items: seq<Item<S>>, run: S -> Result<R, string>)
    ensures Results(Outcomes(items, run)).Ok? <==> forall k :: 0 <= k < |items| ==> run(items[k].spec).Ok?
    ensures Results(Outcomes(items, run)).Ok? ==>
              var results := Results(Outcomes(items, run)).value;
              |results| == |items| && forall k :: 0 <= k < |items| ==> run(items[k].spec) == Ok(results[k])
  {
    var outcomes := Outcomes(items, run);
    if items != [] {
      ResultsAre(items[1..], run);
      assert outcomes[1..] == Outcomes(items[1..], run);
      assert items == [items[0]] + items[1..];
    }
  }
}
