/** Pass/fail counters shared by both check paths: the static validator keeps a
    `passed` and a `failed` counter in local variables, the in-page suite keeps them
    in fields. Either way one check adds one to exactly one of the two. */
module Tallies {

  datatype Tally = Tally(passed: nat, failed: nat) {

    /** Counters of two consecutive groups of checks. */
    function Plus(other: Tally): Tally {
      Tally(passed + other.passed, failed + other.failed)
    }

    /** The effect of one check: `passed++` when it holds, `failed++` otherwise. */
    function Record(ok: bool): Tally {
      if ok then Tally(passed + 1, failed) else Tally(passed, failed + 1)
    }

    /** The verdict both runners return: `failed === 0`. */
    predicate AllPassed() { failed == 0 }
  }

  /** The counters obtained by recording the outcome of each check in `results`,
      in order, starting from zero. */
  function Score(results: seq<bool>): (t: Tally)
    ensures t.passed + t.failed == |results|
  {
    if |results| == 0 then Tally(0, 0)
    else Score(results[..|results| - 1]).Record(results[|results| - 1])
  }

  /** No check fails exactly when every check holds, and none passes exactly when
      every check fails. */
  lemma {:induction false} ScoreVerdict(results: seq<bool>)
    ensures Score(results).AllPassed() <==> forall i | 0 <= i < |results| :: results[i]
    ensures Score(results).passed == 0 <==> forall i | 0 <= i < |results| :: !results[i]
  {
    if |results| != 0 {
      var n := |results| - 1;
      ScoreVerdict(results[..n]);
      assert forall i | 0 <= i < n :: results[..n][i] == results[i];
    }
  }

  /** The counters count the outcomes: `failed` is the number of failing checks
      and `passed` the number of passing ones, wherever they stand. */
  lemma {:induction false} ScoreCountsOutcomes(results: seq<bool>)
    ensures Score(results).failed == multiset(results)[false]
    ensures Score(results).passed == multiset(results)[true]
  {
    if |results| != 0 {
      var n := |results| - 1;
      ScoreCountsOutcomes(results[..n]);
      assert results == results[..n] + [results[n]];
      assert multiset(results) == multiset(results[..n]) + multiset{results[n]};
    }
  }

  /** A single failing check among passing ones is counted as exactly one
      failure, and every other check as a pass. */
  lemma ScoreOneFailure(results: seq<bool>, k: nat)
    requires k < |results| && !results[k]
    requires forall j | 0 <= j < |results| && j != k :: results[j]
    ensures Score(results) == Tally(|results| - 1, 1)
  {
    var front, back := results[..k], results[k + 1..];
    assert results == front + [results[k]] + back;
    AllPassing(front);
    AllPassing(back);
    ScoreAppend(front, [results[k]]);
    ScoreAppend(front + [results[k]], back);
  }

  /** Checks that all hold count as passes only. */
  lemma AllPassing(results: seq<bool>)
    requires forall j | 0 <= j < |results| :: results[j]
    ensures Score(results) == Tally(|results|, 0)
  {
    ScoreVerdict(results);
  }

  /** One more check extends the score of a prefix: the step of a loop over the
      checks. */
  lemma ScorePrefix(results: seq<bool>, i: nat)
    requires i < |results|
    ensures Score(results[..i + 1]) == Score(results[..i]).Record(results[i])
  {
    assert results[..i + 1][..i] == results[..i];
  }

  /** Scoring two groups of checks one after the other adds their counters. */
  lemma {:induction false} ScoreAppend(a: seq<bool>, b: seq<bool>)
    ensures Score(a + b) == Score(a).Plus(Score(b))
  {
    if |b| != 0 {
      var n := |b| - 1;
      var ab := a + b;
      assert ab[..|ab| - 1] == a + b[..n];
      assert ab[|ab| - 1] == b[n];
      assert Score(ab) == Score(a + b[..n]).Record(b[n]);
      ScoreAppend(a, b[..n]);
      assert Score(b) == Score(b[..n]).Record(b[n]);
    } else {
      assert a + b == a;
    }
  }
}
