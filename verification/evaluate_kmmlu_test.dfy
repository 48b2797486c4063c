/**
 * scripts/evaluate_kmmlu_test.py: ask the model every test question in
 * turn, count a question as correct when `int(reply) == answer`, and return
 * `correct / total * 100`, with no guard against an empty test set.
 */
module EvaluateKmmluTest {
  import opened Wrappers
  import opened PyBuiltins
  import opened Kmmlu
  import opened Scoring

  /**
   * `int(pred) == label` for one question: `int` reads the whole reply
   * (surrounding whitespace allowed) and raises ValueError naming it when
   * the reply is not a base-10 integer.
   */
  function ReplyVerdict(reply: string, answer: int): Verdict {
    match ParseInt(reply)
    case None => Err(ValueError(reply))
    case Some(v) => Ok(v == answer)
  }

  /**
   * `llm.ask(SIMPLE_PROMPT.format(...))`: the reply the model gives to the
   * prompt built from the fields of `q` (`format` stands for the template,
   * `ask` for the model).
   */
  function Reply(format: PromptFields -> string, ask: string -> string, q: Question): string {
    ask(format(Fields(q)))
  }

  /** The body of the loop as a verdict function: ask, then compare the reply with the answer. */
  function AskJudge(format: PromptFields -> string, ask: string -> string): Question -> Verdict {
    (q: Question) => ReplyVerdict(Reply(format, ask, q), q.answer)
  }

  /** What `evaluate_kmmlu_test` reports (and returns as accuracy), or the exception it raises. */
  function Evaluation(testSet: seq<Question>, format: PromptFields -> string, ask: string -> string)
    : Result<Summary, PyError>
  {
    match Tally(Verdicts(AskJudge(format, ask), testSet))
    case Err(e) => Err(e)
    case Ok(s) =>
      match UnguardedAccuracy(s)
      case Err(e) => Err(e)
      case Ok(a) => Ok(Summary(s.total, s.correct, a))
  }

  /**
   * `evaluate_kmmlu_test`: the counting loop over the test set in dataset
   * order, then the accuracy expression `correct / total * 100`.
   */
  method EvaluateTestSet(testSet: seq<Question>, format: PromptFields -> string, ask: string -> string)
    returns (r: Result<Summary, PyError>)
    ensures r == Evaluation(testSet, format, ask)
  {
    var counted := CountVerdicts(AskJudge(format, ask), testSet);
    match counted
    case Err(e) =>
      r := Err(e);
    case Ok(s) =>
      var accuracy := UnguardedAccuracy(s);
      match accuracy
      case Err(e) => r := Err(e);
      case Ok(a) => r := Ok(Summary(s.total, s.correct, a));
  }

  /** A reply that is exactly `str(answer)` is counted as correct. */
  lemma ExactReplyIsHit(n: nat)
    ensures ReplyVerdict(Digits(n), n) == Ok(true)
  {
    ParseIntDigits(n);
  }

  /** The positions of the questions the model answered correctly. */
  ghost function CorrectQuestions(testSet: seq<Question>, format: PromptFields -> string, ask: string -> string)
    : set<nat>
  {
    set k: nat | k < |testSet| && ParseInt(Reply(format, ask, testSet[k])) == Some(testSet[k].answer)
  }

  /** The empty test set reaches `correct / total` with `total == 0`: ZeroDivisionError. */
  lemma EmptyTestSetRaises(format: PromptFields -> string, ask: string -> string)
    ensures Evaluation([], format, ask) == Err(ZeroDivisionError)
  {
  }

  /**
   * When the run returns, `total` is the number of questions, `correct` the
   * number whose reply parses to the answer, and the accuracy is the guarded
   * one, since the set was not empty.
   */
  lemma EvaluationCounts(testSet: seq<Question>, format: PromptFields -> string, ask: string -> string)
    requires Evaluation(testSet, format, ask).Ok?
    ensures testSet != []
    ensures Evaluation(testSet, format, ask).value.total == |testSet|
    ensures Evaluation(testSet, format, ask).value.correct == |CorrectQuestions(testSet, format, ask)|
    ensures Evaluation(testSet, format, ask).value.correct <= |testSet|
    ensures Evaluation(testSet, format, ask).value.accuracy
            == Accuracy(Score(|testSet|, |CorrectQuestions(testSet, format, ask)|))
  {
    var judge := AskJudge(format, ask);
    var vs := Verdicts(judge, testSet);
    TallyCounts(vs);
    assert Hits(vs) == CorrectQuestions(testSet, format, ask) by {
      forall k: nat | k < |testSet|
        ensures IsHit(vs[k]) <==> ParseInt(Reply(format, ask, testSet[k])) == Some(testSet[k].answer)
      {
        VerdictsAt(judge, testSet, k);
      }
    }
  }

  /** The run raises exactly when the test set is empty or some reply is not an integer. */
  lemma EvaluationRaises(testSet: seq<Question>, format: PromptFields -> string, ask: string -> string)
    ensures Evaluation(testSet, format, ask).Err? <==>
      testSet == [] || exists k :: 0 <= k < |testSet| && ParseInt(Reply(format, ask, testSet[k])).None?
  {
    var judge := AskJudge(format, ask);
    var vs := Verdicts(judge, testSet);
    TallyFails(vs);
    if Tally(vs).Err? {
      var k :| 0 <= k < |vs| && vs[k].Err?;
      VerdictsAt(judge, testSet, k);
    } else {
      TallyCounts(vs);
      forall k | 0 <= k < |testSet| ensures ParseInt(Reply(format, ask, testSet[k])).Some? {
        VerdictsAt(judge, testSet, k);
        assert vs[k].Ok?;
      }
    }
  }

  /** The first reply that is not an integer ends the run with ValueError naming that reply. */
  lemma FirstBadReplyRaises(testSet: seq<Question>, format: PromptFields -> string, ask: string -> string, k: nat)
    requires k < |testSet| && ParseInt(Reply(format, ask, testSet[k])).None?
    requires forall j :: 0 <= j < k ==> ParseInt(Reply(format, ask, testSet[j])).Some?
    ensures Evaluation(testSet, format, ask) == Err(ValueError(Reply(format, ask, testSet[k])))
  {
    var judge := AskJudge(format, ask);
    var vs := Verdicts(judge, testSet);
    forall j | 0 <= j <= k ensures vs[j] == ReplyVerdict(Reply(format, ask, testSet[j]), testSet[j].answer) {
      VerdictsAt(judge, testSet, j);
    }
    TallyFirstError(vs, k);
  }
}
