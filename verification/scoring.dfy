/**
 * The counting shared by both scorers: each record yields a verdict (a hit,
 * a miss, or a Python exception), `total` and `correct` are bumped in order,
 * and the first exception ends the run with the counters discarded.
 */
module Scoring {
  import opened Wrappers
  import opened PyBuiltins

  datatype Score = Score(total: nat, correct: nat)

  /** The line a scorer reports: `Total: N, Correct: M, Accuracy: P%`. */
  datatype Summary = Summary(total: nat, correct: nat, accuracy: real)

  /** The outcome of one record: `Ok(true)` when the prediction equals the label. */
  type Verdict = Result<bool, PyError>

  predicate IsHit(v: Verdict) {
    v.Ok? && v.value
  }

  /** The counters after a scoring loop has gone over `vs` in order. */
  function Tally(vs: seq<Verdict>): Result<Score, PyError>
  {
    if vs == [] then Ok(Score(0, 0))
    else
      match Tally(vs[..|vs| - 1])
      case Err(e) => Err(e)
      case Ok(s) =>
        match vs[|vs| - 1]
        case Err(e) => Err(e)
        case Ok(hit) => Ok(Score(s.total + 1, if hit then s.correct + 1 else s.correct))
  }

  /** The positions whose verdict is a hit. */
  ghost function Hits(vs: seq<Verdict>): set<nat> {
    set j: nat | j < |vs| && IsHit(vs[j])
  }

  /**
   * When no record raises, `total` is the number of records (duplicates
   * included) and `correct` the number of hits, so `correct <= total`.
   */
  lemma {:induction false} TallyCounts(vs: seq<Verdict>)
    requires Tally(vs).Ok?
    ensures Tally(vs).value.total == |vs|
    ensures Tally(vs).value.correct == |Hits(vs)|
    ensures Tally(vs).value.correct <= Tally(vs).value.total
  {
    if vs != [] {
      var n := |vs|;
      var init := vs[..n - 1];
      TallyCounts(init);
      assert |Hits(vs)| == |Hits(init)| + (if IsHit(vs[n - 1]) then 1 else 0) by {
        HitsStep(vs);
      }
    }
  }

  /** The hits of a sequence are those of all but its last verdict, and the last one if it is a hit. */
  lemma HitsStep(vs: seq<Verdict>)
    requires vs != []
    ensures Hits(vs) == Hits(vs[..|vs| - 1]) + (if IsHit(vs[|vs| - 1]) then {|vs| - 1} else {})
  {
    var init := vs[..|vs| - 1];
    forall j: nat | j < |vs| - 1 ensures j in Hits(vs) <==> j in Hits(init) {
      assert vs[j] == init[j];
    }
  }

  /** The run raises exactly when some record raises. */
  lemma {:induction false} TallyFails(vs: seq<Verdict>)
    ensures Tally(vs).Err? <==> exists k :: 0 <= k < |vs| && vs[k].Err?
  {
    if vs != [] {
      var n := |vs|;
      var init := vs[..n - 1];
      TallyFails(init);
      if Tally(init).Err? {
        var k :| 0 <= k < |init| && init[k].Err?;
        assert vs[k].Err?;
      } else {
        forall k | 0 <= k < n - 1 ensures vs[k].Ok? {
          assert vs[k] == init[k];
        }
      }
    }
  }

  /** The exception that ends the run is the one of the first record that raises. */
  lemma {:induction false} TallyFirstError(vs: seq<Verdict>, k: nat)
    requires k < |vs| && vs[k].Err?
    requires forall j :: 0 <= j < k ==> vs[j].Ok?
    ensures Tally(vs) == Err(vs[k].error)
  {
    var n := |vs|;
    var init := vs[..n - 1];
    if k < n - 1 {
      TallyFirstError(init, k);
    } else {
      TallyFails(init);
      assert Tally(init).Ok?;
    }
  }

  /** Once a prefix has raised, the records after it are never looked at. */
  lemma {:induction false} TallyStopsAtError(vs: seq<Verdict>, i: nat)
    requires i <= |vs| && Tally(vs[..i]).Err?
    ensures Tally(vs) == Tally(vs[..i])
    decreases |vs| - i
  {
    if i < |vs| {
      assert vs[..i + 1][..i] == vs[..i];
      TallyStopsAtError(vs, i + 1);
    } else {
      assert vs[..i] == vs;
    }
  }

  /** One more record that does not raise bumps `total`, and `correct` on a hit. */
  lemma TallyAppendOk(vs: seq<Verdict>, s: Score, hit: bool)
    requires Tally(vs) == Ok(s)
    ensures Tally(vs + [Ok(hit)]) == Ok(Score(s.total + 1, if hit then s.correct + 1 else s.correct))
  {
    assert (vs + [Ok(hit)])[..|vs|] == vs;
  }

  /** One more record that raises ends the run with its exception. */
  lemma TallyAppendErr(vs: seq<Verdict>, e: PyError)
    requires Tally(vs).Ok?
    ensures Tally(vs + [Err(e)]) == Err(e)
  {
    assert (vs + [Err(e)])[..|vs|] == vs;
  }

  /** The verdicts of the records, in the order the scoring loop visits them. */
  function Verdicts<T>(judge: T -> Verdict, xs: seq<T>): (vs: seq<Verdict>)
    ensures |vs| == |xs|
  {
    if xs == [] then [] else Verdicts(judge, xs[..|xs| - 1]) + [judge(xs[|xs| - 1])]
  }

  /** The k-th verdict is the verdict of the k-th record. */
  lemma {:induction false} VerdictsAt<T>(judge: T -> Verdict, xs: seq<T>, k: nat)
    requires k < |xs|
    ensures Verdicts(judge, xs)[k] == judge(xs[k])
  {
    var n := |xs|;
    if k < n - 1 {
      VerdictsAt(judge, xs[..n - 1], k);
    }
  }

  /** The first `n` verdicts are the verdicts of the first `n` records. */
  lemma {:induction false} VerdictsPrefix<T>(judge: T -> Verdict, xs: seq<T>, n: nat)
    requires n <= |xs|
    ensures Verdicts(judge, xs[..n]) == Verdicts(judge, xs)[..n]
    decreases |xs| - n
  {
    if n < |xs| {
      VerdictsPrefix(judge, xs, n + 1);
      assert xs[..n + 1][..n] == xs[..n];
    } else {
      assert xs[..n] == xs;
    }
  }

  /**
   * The scoring loop's step: after the first `i` records left the counters
   * at `s`, a record that does not raise bumps them as TallyAppendOk says.
   */
  lemma CountStep<T>(judge: T -> Verdict, xs: seq<T>, i: nat, s: Score, hit: bool)
    requires i < |xs| && Tally(Verdicts(judge, xs[..i])) == Ok(s)
    requires judge(xs[i]) == Ok(hit)
    ensures Tally(Verdicts(judge, xs[..i + 1])) == Ok(Score(s.total + 1, if hit then s.correct + 1 else s.correct))
  {
    assert xs[..i + 1][..i] == xs[..i];
    TallyAppendOk(Verdicts(judge, xs[..i]), s, hit);
  }

  /** The scoring loop's exit: a record that raises ends the whole run with its exception. */
  lemma CountStopsAt<T>(judge: T -> Verdict, xs: seq<T>, i: nat, e: PyError)
    requires i < |xs| && Tally(Verdicts(judge, xs[..i])).Ok?
    requires judge(xs[i]) == Err(e)
    ensures Tally(Verdicts(judge, xs)) == Err(e)
  {
    var vs := Verdicts(judge, xs);
    assert xs[..i + 1][..i] == xs[..i];
    TallyAppendErr(Verdicts(judge, xs[..i]), e);
    VerdictsPrefix(judge, xs, i + 1);
    TallyStopsAtError(vs, i + 1);
  }

  /**
   * The counting loop both scorers run: for each record in order, judge it,
   * then `total += 1` and, on a hit, `correct += 1`; an exception raised
   * while judging a record ends the loop with that exception.
   */
  method CountVerdicts<T>(judge: T -> Verdict, xs: seq<T>) returns (r: Result<Score, PyError>)
    ensures r == Tally(Verdicts(judge, xs))
  {
    var total: nat, correct: nat := 0, 0;
    var i := 0;
    while i < |xs|
      invariant 0 <= i <= |xs|
      invariant Tally(Verdicts(judge, xs[..i])) == Ok(Score(total, correct))
    {
      var verdict := judge(xs[i]);
      match verdict
      case Err(e) =>
        CountStopsAt(judge, xs, i, e);
        return Err(e);
      case Ok(hit) =>
        CountStep(judge, xs, i, Score(total, correct), hit);
        total := total + 1;
        if hit {
          correct := correct + 1;
        }
        i := i + 1;
    }
    assert xs[..i] == xs;
    r := Ok(Score(total, correct));
  }

  /** `correct / total * 100 if total else 0.0` (scripts/evaluate.py). */
  function Accuracy(s: Score): (a: real)
    ensures s.total == 0 ==> a == 0.0
    ensures s.total > 0 ==> a * s.total as real == 100.0 * s.correct as real
    ensures s.correct <= s.total ==> 0.0 <= a <= 100.0
  {
    if s.total == 0 then 0.0 else Percent(s.correct, s.total)
  }

  /** `correct / total * 100` with no guard (scripts/evaluate_kmmlu_test.py). */
  function UnguardedAccuracy(s: Score): (r: Result<real, PyError>)
    ensures r.Err? <==> s.total == 0
    ensures r.Err? ==> r.error == ZeroDivisionError
    ensures r.Ok? ==> r.value == Accuracy(s)
  {
    if s.total == 0 then Err(ZeroDivisionError) else Ok(Percent(s.correct, s.total))
  }

  function Percent(correct: nat, total: nat): (a: real)
    requires total > 0
    ensures a * total as real == 100.0 * correct as real
    ensures correct <= total ==> 0.0 <= a <= 100.0
  {
    var t := total as real;
    var c := correct as real;
    assert c / t * 100.0 * t == 100.0 * c;
    c / t * 100.0
  }
}
