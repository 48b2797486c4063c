/**
 * scripts/evaluate.py: wait for the evaluation batch job to reach a final
 * status, fetch its output only when it completed, and score the output
 * lines against the test-set labels.
 */
module Evaluate {
  import opened Wrappers
  import opened PyBuiltins
  import opened CustomIds
  import opened Scoring

  // ---------------------------------------------------------------------
  // Batch job status: poll_until_done and download_eval_results
  // ---------------------------------------------------------------------

  /** What one `client.batches.retrieve(batch_id)` call reports. */
  datatype BatchStatus = BatchStatus(status: string, outputFileId: string)

  /** The statuses at which polling stops. */
  predicate IsTerminal(status: string) {
    status == "completed" || status == "failed" || status == "cancelled"
  }

  /** The position of the first terminal status in a sequence of observations. */
  function FirstTerminal(observed: seq<BatchStatus>): (r: Option<nat>)
    ensures r.Some? ==> r.value < |observed| && IsTerminal(observed[r.value].status)
    ensures r.Some? ==> forall j :: 0 <= j < r.value ==> !IsTerminal(observed[j].status)
    ensures r.None? ==> forall j :: 0 <= j < |observed| ==> !IsTerminal(observed[j].status)
  {
    if observed == [] then None
    else if IsTerminal(observed[0].status) then Some(0)
    else
      match FirstTerminal(observed[1..])
      case None => None
      case Some(k) => Some(k + 1)
  }

  /**
   * The `while True` loop of `poll_until_done` run against the statuses the
   * service reports, one per `retrieve` call. It returns the first terminal
   * status together with the number of `retrieve` calls made; `None` means
   * the observations ran out while the loop would still be polling.
   */
  method PollUntilDone(observed: seq<BatchStatus>) returns (r: Option<BatchStatus>, polls: nat)
    ensures r.Some? <==> FirstTerminal(observed).Some?
    ensures r.Some? ==> polls == FirstTerminal(observed).value + 1 && r.value == observed[polls - 1]
    ensures r.Some? ==> IsTerminal(r.value.status)
    ensures r.None? ==> polls == |observed|
  {
    var i := 0;
    while i < |observed|
      invariant 0 <= i <= |observed|
      invariant forall j :: 0 <= j < i ==> !IsTerminal(observed[j].status)
    {
      var status := observed[i];
      if IsTerminal(status.status) {
        return Some(status), i + 1;
      }
      i := i + 1;
    }
    return None, |observed|;
  }

  /** Statuses reported after the first terminal one are never consulted. */
  lemma {:induction false} PollIgnoresLaterStatuses(observed: seq<BatchStatus>, later: seq<BatchStatus>)
    requires FirstTerminal(observed).Some?
    ensures FirstTerminal(observed + later) == FirstTerminal(observed)
  {
    if !IsTerminal(observed[0].status) {
      assert (observed + later)[1..] == observed[1..] + later;
      PollIgnoresLaterStatuses(observed[1..], later);
    }
  }

  /**
   * `download_eval_results`: the output file is fetched (through `fetch`,
   * standing for `client.files.content(...).text`) only when the job
   * completed; any other status raises a RuntimeError naming it.
   */
  function DownloadEvalResults(s: BatchStatus, fetch: string -> string): (r: Result<string, PyError>)
    ensures r.Ok? <==> s.status == "completed"
    ensures r.Ok? ==> r.value == fetch(s.outputFileId)
    ensures r.Err? ==> r.error == RuntimeError("Eval batch did not complete: " + s.status)
  {
    if s.status != "completed" then Err(RuntimeError("Eval batch did not complete: " + s.status))
    else Ok(fetch(s.outputFileId))
  }

  /** A terminal status other than `completed` always ends the run before scoring. */
  lemma FailedJobRaises(s: BatchStatus, fetch: string -> string)
    requires IsTerminal(s.status)
    ensures DownloadEvalResults(s, fetch).Err? <==> s.status == "failed" || s.status == "cancelled"
  {
  }

  // ---------------------------------------------------------------------
  // compute_accuracy
  // ---------------------------------------------------------------------

  /** One output line: its `custom_id` and the model's raw message content. */
  datatype OutputRecord = OutputRecord(customId: string, content: string)

  /**
   * `id_to_label.get(custom_id)`: the label of the question whose identifier
   * is `id`, or None when `id` is not the identifier of any question.
   */
  function LabelOf(labels: seq<int>, id: string): Option<int>
  {
    if |id| >= 1 && id[0] == 'q' && AllDigits(id[1..]) then
      var i := Value(id[1..]);
      if 1 <= i <= |labels| && CustomId(i) == id then Some(labels[i - 1]) else None
    else None
  }

  /** The label of the idx-th question (1-based) is found under its identifier. */
  lemma LabelOfQuestion(labels: seq<int>, idx: nat)
    requires 1 <= idx <= |labels|
    ensures LabelOf(labels, CustomId(idx)) == Some(labels[idx - 1])
  {
    CustomIdSpec(idx);
  }

  /** Only the identifiers of questions have a label. */
  lemma LabelOfOnlyQuestions(labels: seq<int>, id: string)
    ensures LabelOf(labels, id).Some? <==> exists idx :: 1 <= idx <= |labels| && id == CustomId(idx)
  {
    if exists idx :: 1 <= idx <= |labels| && id == CustomId(idx) {
      var idx :| 1 <= idx <= |labels| && id == CustomId(idx);
      LabelOfQuestion(labels, idx);
    }
  }

  /**
   * The first loop of `compute_accuracy`: `id_to_label` maps the identifier
   * of the idx-th question (1-based, dataset order) to its answer and holds
   * no other key.
   */
  method BuildLabelMap(labels: seq<int>) returns (m: map<string, int>)
    ensures forall idx :: 1 <= idx <= |labels| ==> CustomId(idx) in m && m[CustomId(idx)] == labels[idx - 1]
    ensures forall id :: id in m ==> exists idx :: 1 <= idx <= |labels| && id == CustomId(idx)
  {
    m := map[];
    var idx := 1;
    while idx <= |labels|
      invariant 1 <= idx <= |labels| + 1
      invariant LabelsUpTo(labels, m, idx - 1)
    {
      LabelsUpToStep(labels, m, idx);
      m := m[CustomId(idx) := labels[idx - 1]];
      idx := idx + 1;
    }
  }

  /** `m` holds exactly the identifiers of the first `n` questions, each with its answer. */
  ghost predicate LabelsUpTo(labels: seq<int>, m: map<string, int>, n: nat)
    requires n <= |labels|
  {
    (forall j :: 1 <= j <= n ==> CustomId(j) in m && m[CustomId(j)] == labels[j - 1])
    && (forall id :: id in m ==> exists j :: 1 <= j <= n && id == CustomId(j))
  }

  lemma LabelsUpToStep(labels: seq<int>, m: map<string, int>, idx: nat)
    requires 1 <= idx <= |labels| && LabelsUpTo(labels, m, idx - 1)
    ensures LabelsUpTo(labels, m[CustomId(idx) := labels[idx - 1]], idx)
  {
    var id := CustomId(idx);
    var m' := m[id := labels[idx - 1]];
    forall j | 1 <= j <= idx ensures CustomId(j) in m' && m'[CustomId(j)] == labels[j - 1] {
      if j < idx {
        CustomIdInjective(j, idx);
        assert CustomId(j) in m;
      }
    }
    forall k | k in m' ensures exists j :: 1 <= j <= idx && k == CustomId(j) {
      if k != id {
        assert k in m;
      }
    }
  }

  /** The map built by the first loop answers every lookup as LabelOf does. */
  lemma LabelMapIsLabelOf(labels: seq<int>, m: map<string, int>, id: string)
    requires forall idx :: 1 <= idx <= |labels| ==> CustomId(idx) in m && m[CustomId(idx)] == labels[idx - 1]
    requires forall id :: id in m ==> exists idx :: 1 <= idx <= |labels| && id == CustomId(idx)
    ensures LabelOf(labels, id) == if id in m then Some(m[id]) else None
  {
    LabelOfOnlyQuestions(labels, id);
    if id in m {
      var idx :| 1 <= idx <= |labels| && id == CustomId(idx);
      LabelOfQuestion(labels, idx);
    }
  }

  /** The map built by the first loop agrees with LabelOf on every key. */
  ghost predicate IsLabelMap(labels: seq<int>, m: map<string, int>) {
    forall id :: LabelOf(labels, id) == if id in m then Some(m[id]) else None
  }

  lemma LabelMapMatches(labels: seq<int>, m: map<string, int>)
    requires forall idx :: 1 <= idx <= |labels| ==> CustomId(idx) in m && m[CustomId(idx)] == labels[idx - 1]
    requires forall id :: id in m ==> exists idx :: 1 <= idx <= |labels| && id == CustomId(idx)
    ensures IsLabelMap(labels, m)
  {
    forall id ensures LabelOf(labels, id) == if id in m then Some(m[id]) else None {
      LabelMapIsLabelOf(labels, m, id);
    }
  }

  /**
   * `int(raw.strip().upper()[0])`: the predicted label of one output line,
   * the first character of the stripped content read as a digit
   * (PredictionIsInt shows this is what `int` does to it).
   */
  function Prediction(raw: string): Result<int, PyError>
  {
    var text := Strip(raw);
    if text == [] then Err(IndexError)
    else if IsDigit(text[0]) then Ok(DigitVal(text[0]))
    else Err(ValueError([UpperChar(text[0])]))
  }

  /** Prediction is `int` applied to the one-character string `raw.strip().upper()[0]`. */
  lemma PredictionIsInt(raw: string)
    ensures Prediction(raw) ==
      var text := Upper(Strip(raw));
      if text == [] then Err(IndexError)
      else
        match ParseInt([text[0]])
        case None => Err(ValueError([text[0]]))
        case Some(d) => Ok(d)
  {
    var text := Upper(Strip(raw));
    UpperSpec(Strip(raw));
    if text != [] {
      ParseIntChar(text[0]);
    }
  }

  /**
   * The prediction is the first non-whitespace character of the content
   * read as a digit. An all-whitespace content raises IndexError; a first
   * character that is not a digit raises ValueError naming it.
   */
  lemma PredictionCases(raw: string)
    ensures Prediction(raw) == Err(IndexError) <==> forall i :: 0 <= i < |raw| ==> IsSpace(raw[i])
    ensures Prediction(raw).Ok? <==> Strip(raw) != [] && IsDigit(Strip(raw)[0])
    ensures Prediction(raw).Ok? ==> Prediction(raw).value == DigitVal(Strip(raw)[0])
    ensures Strip(raw) != [] && !IsDigit(Strip(raw)[0]) ==>
      Prediction(raw) == Err(ValueError([Upper(Strip(raw))[0]]))
  {
    StripSpec(raw);
    UpperSpec(Strip(raw));
  }

  /** A line is a hit when its prediction equals the label looked up for its identifier. */
  function Verdict(labels: seq<int>, rec: OutputRecord): Verdict
  {
    match Prediction(rec.content)
    case Err(e) => Err(e)
    case Ok(d) => Ok(LabelOf(labels, rec.customId) == Some(d))
  }

  /** The verdict function of a batch, one output line at a time. */
  function Judge(labels: seq<int>): OutputRecord -> Verdict {
    (rec: OutputRecord) => Verdict(labels, rec)
  }

  /**
   * One iteration of the second loop: predict the line's label, look the
   * identifier up in `idToLabel`, and compare.
   */
  function LineVerdict(idToLabel: map<string, int>, rec: OutputRecord): Verdict {
    match Prediction(rec.content)
    case Err(e) => Err(e)
    case Ok(d) => Ok((if rec.customId in idToLabel then Some(idToLabel[rec.customId]) else None) == Some(d))
  }

  function MapJudge(idToLabel: map<string, int>): OutputRecord -> Verdict {
    (rec: OutputRecord) => LineVerdict(idToLabel, rec)
  }

  /** Judging with the label map is judging with the test-set labels. */
  lemma MapJudgeAgrees(labels: seq<int>, m: map<string, int>, outputs: seq<OutputRecord>)
    requires IsLabelMap(labels, m)
    ensures Verdicts(MapJudge(m), outputs) == Verdicts(Judge(labels), outputs)
  {
    forall k | 0 <= k < |outputs| ensures MapJudge(m)(outputs[k]) == Judge(labels)(outputs[k]) {
      assert LabelOf(labels, outputs[k].customId) == if outputs[k].customId in m then Some(m[outputs[k].customId]) else None;
    }
  }

  /** What `compute_accuracy` reports for these labels and output lines. */
  function BatchScore(labels: seq<int>, outputs: seq<OutputRecord>): Result<Summary, PyError>
  {
    match Tally(Verdicts(Judge(labels), outputs))
    case Err(e) => Err(e)
    case Ok(s) => Ok(Summary(s.total, s.correct, Accuracy(s)))
  }

  /** The positions of the output lines that are counted as correct. */
  ghost function HitLines(labels: seq<int>, outputs: seq<OutputRecord>): set<nat> {
    set k: nat | k < |outputs| && Verdict(labels, outputs[k]) == Ok(true)
  }

  /**
   * A line is counted as correct exactly when the first non-whitespace
   * character of its content is a digit whose value is the label looked up
   * for its identifier.
   */
  lemma LineHit(labels: seq<int>, rec: OutputRecord)
    ensures Verdict(labels, rec) == Ok(true) <==>
      Strip(rec.content) != [] && IsDigit(Strip(rec.content)[0])
      && LabelOf(labels, rec.customId) == Some(DigitVal(Strip(rec.content)[0]))
  {
    PredictionCases(rec.content);
  }

  /**
   * An identifier that names no question gets no label: its line is never
   * correct, and when its prediction parses it is counted as a miss.
   */
  lemma UnknownIdIsMiss(labels: seq<int>, rec: OutputRecord)
    requires forall idx :: 1 <= idx <= |labels| ==> rec.customId != CustomId(idx)
    ensures Verdict(labels, rec) != Ok(true)
    ensures Prediction(rec.content).Ok? ==> Verdict(labels, rec) == Ok(false)
  {
    LabelOfOnlyQuestions(labels, rec.customId);
  }

  /**
   * When no line raises, `total` is the number of output lines (repeated
   * identifiers are counted each time), `correct` the number of lines that
   * are hits, and the accuracy is Accuracy of those two counters.
   */
  lemma BatchScoreCounts(labels: seq<int>, outputs: seq<OutputRecord>)
    requires BatchScore(labels, outputs).Ok?
    ensures BatchScore(labels, outputs).value.total == |outputs|
    ensures BatchScore(labels, outputs).value.correct == |HitLines(labels, outputs)|
    ensures BatchScore(labels, outputs).value.correct <= BatchScore(labels, outputs).value.total
    ensures BatchScore(labels, outputs).value.accuracy == Accuracy(Score(|outputs|, |HitLines(labels, outputs)|))
  {
    var vs := Verdicts(Judge(labels), outputs);
    TallyCounts(vs);
    assert Hits(vs) == HitLines(labels, outputs) by {
      forall k: nat | k < |outputs| ensures IsHit(vs[k]) <==> Verdict(labels, outputs[k]) == Ok(true) {
        VerdictsAt(Judge(labels), outputs, k);
      }
    }
  }

  /** Scoring raises exactly when some line's prediction raises. */
  lemma BatchScoreRaises(labels: seq<int>, outputs: seq<OutputRecord>)
    ensures BatchScore(labels, outputs).Err? <==> exists k :: 0 <= k < |outputs| && Prediction(outputs[k].content).Err?
  {
    var vs := Verdicts(Judge(labels), outputs);
    TallyFails(vs);
    if Tally(vs).Err? {
      var k :| 0 <= k < |vs| && vs[k].Err?;
      VerdictsAt(Judge(labels), outputs, k);
    } else {
      forall k | 0 <= k < |outputs| ensures Prediction(outputs[k].content).Ok? {
        VerdictsAt(Judge(labels), outputs, k);
        assert vs[k].Ok?;
      }
    }
  }

  /** The exception raised is the one of the first line whose prediction raises. */
  lemma BatchScoreFirstError(labels: seq<int>, outputs: seq<OutputRecord>, k: nat)
    requires k < |outputs| && Prediction(outputs[k].content).Err?
    requires forall j :: 0 <= j < k ==> Prediction(outputs[j].content).Ok?
    ensures BatchScore(labels, outputs) == Err(Prediction(outputs[k].content).error)
  {
    var vs := Verdicts(Judge(labels), outputs);
    forall j | 0 <= j <= k ensures vs[j] == Verdict(labels, outputs[j]) {
      VerdictsAt(Judge(labels), outputs, j);
    }
    TallyFirstError(vs, k);
  }

  /**
   * Four questions labelled 1 to 4 whose lines, one per question in
   * order, answer "1", "2", "4" and "4": three lines are hits, the third is
   * a miss, and the accuracy is 75 percent.
   */
  lemma DigitAnswersExample(labels: seq<int>, outputs: seq<OutputRecord>)
    requires labels == [1, 2, 3, 4] && |outputs| == 4
    requires outputs[0] == OutputRecord(CustomId(1), "1") && outputs[1] == OutputRecord(CustomId(2), "2")
    requires outputs[2] == OutputRecord(CustomId(3), "4") && outputs[3] == OutputRecord(CustomId(4), "4")
    ensures BatchScore(labels, outputs) == Ok(Summary(4, 3, 75.0))
  {
    LineExample(labels, outputs, 1, 1);
    LineExample(labels, outputs, 2, 2);
    LineExample(labels, outputs, 3, 4);
    LineExample(labels, outputs, 4, 4);
    assert Verdicts(Judge(labels), outputs) == [Ok(true), Ok(true), Ok(false), Ok(true)];
    DigitExampleTally();
  }

  lemma DigitExampleTally()
    ensures Tally([Ok(true), Ok(true), Ok(false), Ok(true)]) == Ok(Score(4, 3))
  {
    var hit: Verdict, miss: Verdict := Ok(true), Ok(false);
    TallyAppendOk([], Score(0, 0), true);
    assert [] + [hit] == [hit];
    TallyAppendOk([hit], Score(1, 1), true);
    assert [hit] + [hit] == [hit, hit];
    TallyAppendOk([hit, hit], Score(2, 2), false);
    assert [hit, hit] + [miss] == [hit, hit, miss];
    TallyAppendOk([hit, hit, miss], Score(3, 2), true);
    assert [hit, hit, miss] + [hit] == [hit, hit, miss, hit];
  }

  /** The idx-th line (from 1), which answers the digit `d`, is judged against the idx-th label. */
  lemma LineExample(labels: seq<int>, outputs: seq<OutputRecord>, idx: nat, d: nat)
    requires 1 <= idx <= |outputs| && idx <= |labels| && d < 10
    requires outputs[idx - 1] == OutputRecord(CustomId(idx), [DigitChar(d)])
    ensures Verdicts(Judge(labels), outputs)[idx - 1] == Ok(labels[idx - 1] == d)
  {
    VerdictsAt(Judge(labels), outputs, idx - 1);
    DigitNotSpace(DigitChar(d));
    StripNoSpace([DigitChar(d)]);
    DigitLineVerdict(labels, outputs[idx - 1], idx, d);
  }

  /** A line answering the digit `d` under the idx-th identifier is a hit exactly when `d` is the idx-th label. */
  lemma DigitLineVerdict(labels: seq<int>, rec: OutputRecord, idx: nat, d: nat)
    requires 1 <= idx <= |labels| && d < 10
    requires rec.customId == CustomId(idx) && Strip(rec.content) == [DigitChar(d)]
    ensures Verdict(labels, rec) == Ok(labels[idx - 1] == d)
  {
    LabelOfQuestion(labels, idx);
  }

  /**
   * The same four questions answered with letters "A", "B", "X", "D": the
   * first line already raises ValueError('A'), so the run reports nothing.
   */
  lemma LetterAnswersExample(labels: seq<int>, outputs: seq<OutputRecord>)
    requires labels == [1, 2, 3, 4] && |outputs| == 4
    requires outputs[0] == OutputRecord(CustomId(1), "A") && outputs[1] == OutputRecord(CustomId(2), "B")
    requires outputs[2] == OutputRecord(CustomId(3), "X") && outputs[3] == OutputRecord(CustomId(4), "D")
    ensures BatchScore(labels, outputs) == Err(ValueError("A"))
  {
    StripNoSpace("A");
    BatchScoreFirstError(labels, outputs, 0);
  }

  /**
   * `compute_accuracy` over the test-set labels (dataset order) and the
   * parsed lines of the output file (file order).
   */
  method ComputeAccuracy(labels: seq<int>, outputs: seq<OutputRecord>) returns (r: Result<Summary, PyError>)
    ensures r == BatchScore(labels, outputs)
  {
    var idToLabel := BuildLabelMap(labels);
    LabelMapMatches(labels, idToLabel);
    MapJudgeAgrees(labels, idToLabel, outputs);
    var counted := CountVerdicts(MapJudge(idToLabel), outputs);
    match counted
    case Err(e) => r := Err(e);
    case Ok(s) => r := Ok(Summary(s.total, s.correct, Accuracy(s)));
  }
}
