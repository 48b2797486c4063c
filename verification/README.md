# KMMLU Criminal-Law evaluation: batch scoring and question identifiers

This project is a Dafny model of the bookkeeping in the scripts that evaluate a
retrieval-augmented agent on the KMMLU Criminal-Law test split:

- `scripts/build_batch_input.py` writes one chat-completion request per test
  question to a JSONL batch input file. Each request gets the identifier
  `q%04d` of the question's 1-based position, and its prompt holds the
  retrieved passages joined by blank lines.
- `scripts/evaluate.py` waits for the batch job to reach a final status, and
  downloads its output only when the job completed. It then scores the output
  lines: it rebuilds the identifier-to-label map from the test set, takes the
  first character of each stripped, upper-cased reply as the prediction, and
  counts `total` and `correct`. The accuracy is guarded against `total == 0`.
- `scripts/evaluate_kmmlu_test.py` asks the model each question directly,
  compares `int(reply)` with the answer, and computes the accuracy with no
  guard against an empty test set.

The Python built-ins these scripts rely on are modelled exactly enough for the
contracts to speak about them:

- `str.strip`, with Python's whitespace set;
- `str.upper`;
- `int(s)` in base 10;
- `str(n)` and the `%04d` format;
- `str.join`.

A Python exception that escapes a script is modelled as the `Err` side of a
`Result`, with a `PyError` naming it.

Modules:

- `Wrappers`: `Option` and `Result`.
- `PyBuiltins`: the built-ins above.
- `CustomIds`: the `q%04d` identifier scheme.
- `Kmmlu`: the test-set record and its prompt fields.
- `Scoring`: the counting loop both scorers share, written once over an
  abstract verdict function, and the two accuracy expressions.
- `Evaluate`: polling, the download guard and `compute_accuracy`.
- `EvaluateKmmluTest`: `evaluate_kmmlu_test`.
- `BuildBatchInput`: the request records and the batch input file, a class
  whose method appends one record.

The loops of the source are methods, each proved against a specification
function. Those functions' properties are proved as lemmas:

- `Evaluate.PollUntilDone` is proved against `FirstTerminal`.
- `Evaluate.BuildLabelMap` is proved against `LabelOf`.
- `Evaluate.ComputeAccuracy` is proved against `BatchScore`.
- `EvaluateKmmluTest.EvaluateTestSet` is proved against `Evaluation`.
- `BuildBatchInput.BuildBatchInputFile` is proved against `Requests`.

## Model

| member | source | states |
|---|---|---|
| PyBuiltins.StripSpec | scripts/evaluate.py:76 | a stripped text neither starts nor ends with whitespace, and it is empty exactly when the whole text is whitespace |
| PyBuiltins.StripIsSlice | scripts/evaluate.py:76 | `strip()` keeps one contiguous slice of the text and drops only whitespace on either side of it |
| PyBuiltins.UpperSpec | scripts/evaluate.py:76 | the modelled `upper()`, which upper-cases ASCII letters only, keeps the length, leaves no lower-case ASCII letter, and never turns a non-digit into a digit or changes a digit |
| PyBuiltins.ParseIntChar | scripts/evaluate.py:79 | `int` of a one-character string is the digit's value when the character is a decimal digit and raises otherwise |
| PyBuiltins.ParseIntDigits | scripts/evaluate_kmmlu_test.py:16 | `int(str(n)) == n` for every natural number `n` |
| PyBuiltins.DigitsSpec | scripts/evaluate.py:64 | `str(n)` is a non-empty run of decimal digits with no leading zero (unless it is `0`) that reads back as `n` |
| PyBuiltins.FormatZeroPaddedSpec | scripts/evaluate.py:64 | `%0Nd` pads `str(n)` with zeros on the left up to width N, never truncates, and still reads back as `n` |
| PyBuiltins.DigitsFit | scripts/evaluate.py:64 | `str(n)` has at most k digits exactly when `n < 10^k` |
| PyBuiltins.ParseDigitGroup | scripts/evaluate_kmmlu_test.py:16 | a digit group parses exactly when it is digits with single underscores between digits; a plain digit string parses to its value |
| PyBuiltins.JoinLength | scripts/build_batch_input.py:18 | the joined text is as long as the parts and the separators between them |
| PyBuiltins.JoinPart | scripts/build_batch_input.py:18 | every part appears unchanged in the joined text, at the offset after the parts and separators before it |
| PyBuiltins.JoinSeparator | scripts/build_batch_input.py:18 | exactly one separator stands between each two neighbouring parts |
| PyBuiltins.Strip | scripts/evaluate.py:76 | `s.strip()`: drops leading and trailing whitespace, as StripSpec and StripIsSlice state |
| PyBuiltins.Upper | scripts/evaluate.py:76 | `s.upper()` on ASCII letters, as UpperSpec states |
| PyBuiltins.ParseInt | scripts/evaluate_kmmlu_test.py:16 | `int(s)` in base 10: optional surrounding whitespace, one optional sign, digits with single underscores between them, anything else raising ValueError; ParseIntDigits and ParseIntChar state its results |
| PyBuiltins.Digits | scripts/evaluate.py:64 | `str(n)` for a natural number, as DigitsSpec and DigitsFit state |
| PyBuiltins.FormatZeroPadded | scripts/evaluate.py:64 | `%0Nd`, as FormatZeroPaddedSpec states |
| PyBuiltins.Join | scripts/build_batch_input.py:18 | `sep.join(parts)`, as JoinLength, JoinPart and JoinSeparator state |
| CustomIds.CustomId | scripts/evaluate.py:64 | `f"q{idx:04d}"`, built the same way at scripts/build_batch_input.py:28; CustomIdSpec, CustomIdDigits and CustomIdInjective state its properties |
| CustomIds.CustomIdSpec | scripts/evaluate.py:64 | an identifier is `q` followed by at least four decimal digits that read back as the question's position |
| CustomIds.CustomIdLength | scripts/evaluate.py:64 | the identifier is exactly five characters long exactly when the position is at most 9999 |
| CustomIds.CustomIdDigits | scripts/evaluate.py:64 | for positions up to 9999 the identifier is `q` and the four decimal digits of the position, most significant first, left-padded with zeros |
| CustomIds.CustomIdInjective | scripts/evaluate.py:64 | distinct positions never share an identifier |
| Evaluate.IsTerminal | scripts/evaluate.py:43 | the statuses at which polling stops: completed, failed and cancelled; FirstTerminal, PollUntilDone and FailedJobRaises state how it is used |
| Evaluate.FirstTerminal | scripts/evaluate.py:40-44 | the position found is the first observation with status completed, failed or cancelled; when none is found, no observation is terminal |
| Evaluate.PollUntilDone | scripts/evaluate.py:38-45 | polling returns the first terminal status and only a terminal one, after one retrieve call per observation up to it; it is still polling when no observation is terminal |
| Evaluate.PollIgnoresLaterStatuses | scripts/evaluate.py:40-44 | statuses reported after the first terminal one do not change the outcome |
| Evaluate.DownloadEvalResults | scripts/evaluate.py:48-53 | the output file is fetched exactly when the status is `completed`; any other status raises the RuntimeError naming it |
| Evaluate.FailedJobRaises | scripts/evaluate.py:49-50 | of the terminal statuses, `failed` and `cancelled` are exactly the ones that raise instead of downloading |
| Evaluate.BuildLabelMap | scripts/evaluate.py:62-65 | the map sends the identifier of the idx-th question (1-based) to its answer and holds no other key |
| Evaluate.LabelOfQuestion | scripts/evaluate.py:77 | the lookup of the idx-th question's identifier yields that question's label |
| Evaluate.LabelOfOnlyQuestions | scripts/evaluate.py:77 | a lookup yields a label exactly when the identifier is that of some question |
| Evaluate.LabelMapMatches | scripts/evaluate.py:62-65 | any map with BuildLabelMap's two properties answers every `get` as the label lookup does |
| Evaluate.LabelOf | scripts/evaluate.py:77 | `id_to_label.get(custom_id)` over the test-set labels; LabelOfQuestion and LabelOfOnlyQuestions state it, and LabelMapMatches ties it to the map the loop builds |
| Evaluate.Prediction | scripts/evaluate.py:76-79 | `int(raw.strip().upper()[0])`, as PredictionIsInt and PredictionCases state |
| Evaluate.Verdict | scripts/evaluate.py:77-80 | whether one line is a hit, or the exception it raises, judged against the test-set labels; LineHit and UnknownIdIsMiss state it |
| Evaluate.LineVerdict | scripts/evaluate.py:76-80 | one iteration of the counting loop, judged against the built map; MapJudgeAgrees shows it agrees with Verdict |
| Evaluate.BatchScore | scripts/evaluate.py:68-81 | what `compute_accuracy` reports or raises; BatchScoreCounts, BatchScoreRaises and BatchScoreFirstError state it |
| Evaluate.PredictionIsInt | scripts/evaluate.py:76-79 | the prediction is `int` of the first character of the stripped, upper-cased reply, raising IndexError on an empty text and ValueError naming the character otherwise |
| Evaluate.PredictionCases | scripts/evaluate.py:76-79 | an all-whitespace reply raises IndexError, a reply whose first non-blank character is not a digit raises ValueError with that character upper-cased, and otherwise the prediction is that digit |
| Evaluate.MapJudgeAgrees | scripts/evaluate.py:77-79 | judging the lines with the built map gives the same verdict on every line as judging them with the test-set labels |
| Evaluate.LineHit | scripts/evaluate.py:75-80 | a line counts as correct exactly when its first non-blank character is a digit equal to the label looked up for its identifier |
| Evaluate.UnknownIdIsMiss | scripts/evaluate.py:77-80 | a line whose identifier names no question is never counted correct; when its prediction parses, it counts as a miss |
| Evaluate.BatchScoreCounts | scripts/evaluate.py:68-81 | when scoring succeeds, `total` is the number of output lines (duplicate identifiers included), `correct` the number of hit lines, `correct <= total`, and the accuracy is the guarded accuracy of those counts |
| Evaluate.BatchScoreRaises | scripts/evaluate.py:76-79 | scoring raises exactly when some line's prediction raises |
| Evaluate.BatchScoreFirstError | scripts/evaluate.py:71-79 | the exception raised is the one of the first line whose prediction raises |
| Evaluate.DigitAnswersExample | scripts/evaluate.py:68-81 | four questions labelled 1 to 4, answered "1", "2", "4", "4" in order, score total 4, correct 3 and accuracy 75 |
| Evaluate.LetterAnswersExample | scripts/evaluate.py:76-79 | the same questions answered with letters "A", "B", "X", "D" make scoring raise ValueError on the first line |
| Evaluate.ComputeAccuracy | scripts/evaluate.py:59-81 | the two loops of `compute_accuracy` report the score (or raise the exception) that BatchScore defines |
| Scoring.Tally | scripts/evaluate.py:68-80 | the counters after a counting loop has gone over a sequence of verdicts in order, or the first exception; TallyCounts, TallyFails and TallyFirstError state it |
| Scoring.TallyCounts | scripts/evaluate.py:68-80 | when no record raises, `total` is the number of records, `correct` the number of hits, and `correct <= total` |
| Scoring.TallyFails | scripts/evaluate.py:71-80 | a counting run raises exactly when some record raises |
| Scoring.TallyFirstError | scripts/evaluate.py:71-80 | the run ends with the exception of the first record that raises |
| Scoring.TallyStopsAtError | scripts/evaluate.py:71-80 | records after one that raised do not affect the outcome |
| Scoring.TallyAppendOk | scripts/evaluate.py:78-80 | one more record that does not raise adds one to `total`, and one to `correct` exactly when it is a hit |
| Scoring.TallyAppendErr | scripts/evaluate.py:79 | one more record that raises ends the run with its exception |
| Scoring.CountVerdicts | scripts/evaluate.py:68-80 | the counting loop over records in order computes Tally of their verdicts, stopping at the first exception |
| Scoring.Accuracy | scripts/evaluate.py:81 | the accuracy is 0.0 when `total == 0`, otherwise `correct * 100 / total`, and lies within 0 to 100 when `correct <= total` |
| Scoring.UnguardedAccuracy | scripts/evaluate_kmmlu_test.py:18 | `correct / total * 100` raises ZeroDivisionError exactly when `total == 0`, and otherwise equals the guarded accuracy |
| EvaluateKmmluTest.ReplyVerdict | scripts/evaluate_kmmlu_test.py:16 | `int(pred) == label` for one question, raising ValueError on a reply that is not an integer; ExactReplyIsHit states it |
| EvaluateKmmluTest.Reply | scripts/evaluate_kmmlu_test.py:10-13 | the model's reply to the prompt formatted from the question's fields; EvaluationCounts and EvaluationRaises state how replies are scored |
| EvaluateKmmluTest.AskJudge | scripts/evaluate_kmmlu_test.py:10-17 | the loop body as a verdict function: ask, then compare `int(reply)` with the answer; EvaluateTestSet counts with it |
| EvaluateKmmluTest.Evaluation | scripts/evaluate_kmmlu_test.py:8-18 | what `evaluate_kmmlu_test` returns or raises; EmptyTestSetRaises, EvaluationCounts, EvaluationRaises and FirstBadReplyRaises state it |
| EvaluateKmmluTest.EvaluateTestSet | scripts/evaluate_kmmlu_test.py:6-20 | the loop and accuracy expression report exactly what Evaluation defines; the method changes no state, so only its two counters vary |
| EvaluateKmmluTest.ExactReplyIsHit | scripts/evaluate_kmmlu_test.py:16 | a reply that is exactly `str(answer)` counts as correct |
| EvaluateKmmluTest.EmptyTestSetRaises | scripts/evaluate_kmmlu_test.py:18 | an empty test set raises ZeroDivisionError |
| EvaluateKmmluTest.EvaluationCounts | scripts/evaluate_kmmlu_test.py:8-18 | when the run returns, the test set is non-empty, `total` is its size, `correct` the number of replies that parse to the answer, `correct <= total`, and the accuracy is `correct * 100 / total` |
| EvaluateKmmluTest.EvaluationRaises | scripts/evaluate_kmmlu_test.py:13-18 | the run raises exactly when the test set is empty or some reply is not an integer |
| EvaluateKmmluTest.FirstBadReplyRaises | scripts/evaluate_kmmlu_test.py:13-16 | the first reply that is not an integer ends the run with the ValueError naming that reply |
| Kmmlu.Fields | scripts/build_batch_input.py:19-26 | the keyword arguments `question`, `A` to `D` of both `.format` calls (also scripts/evaluate_kmmlu_test.py:10-12), never the answer; RequestShape states the prompt is formatted from them |
| BuildBatchInput.Context | scripts/build_batch_input.py:18 | `"\n\n".join(context_chunks)`, as ContextLayout states |
| BuildBatchInput.RequestFor | scripts/build_batch_input.py:19-37 | the record written for the idx-th question, as RequestShape and RequestJoinsLabel state |
| BuildBatchInput.Requests | scripts/build_batch_input.py:16 | one request per test question |
| BuildBatchInput.JsonlFile.Create | scripts/build_batch_input.py:15 | opening the batch input file for writing leaves it empty |
| BuildBatchInput.JsonlFile.Write | scripts/build_batch_input.py:38 | writing appends exactly one record at the end and keeps the earlier ones |
| BuildBatchInput.BuildBatchInputFile | scripts/build_batch_input.py:12-38 | the file ends up holding the request of every question, one each, in test-set order, the idx-th with identifier `q%04d` of idx |
| BuildBatchInput.RequestShape | scripts/build_batch_input.py:19-36 | every request is a POST to `/v1/chat/completions` for `gpt-4o-mini` at temperature 0.0 with `max_tokens` 1, with exactly one user message holding the prompt formatted from that question and its context |
| BuildBatchInput.RequestIdsDistinct | scripts/build_batch_input.py:28 | no two requests of a file share an identifier |
| BuildBatchInput.RequestJoinsLabel | scripts/build_batch_input.py:28 | the scorer's label lookup for the k-th request's identifier yields the k-th question's answer, so the two scripts' identifiers join |
| BuildBatchInput.ContextLayout | scripts/build_batch_input.py:17-18 | every retrieved passage appears whole in the context, in retrieval order, with exactly a blank line between two neighbours |

## Left out

- OpenAI calls are parameters of the model and are not modelled themselves:
  - file upload and batch creation (`submit_eval_batch`) are left out;
  - `batches.retrieve` is the sequence of observed statuses given to `PollUntilDone`;
  - `files.content(...).text` is the `fetch` parameter of `DownloadEvalResults`;
  - `llm.ask` is the `ask` parameter;
  - the retriever is the `retrieve` parameter;
  - the prompt templates are the `format` parameters.
- `BuildBatchInput.BuildBatchInputFile`: assumes an agent whose retriever is the `retrieve` parameter. `scripts/build_batch_input.py:14` calls `llm.Agent(...)`, but `agent/llm.py` as it stands defines only `client` and `ask`, no `Agent`. So the script as shown would raise AttributeError at line 14, before line 15 opens the file, and write nothing. The model describes the file an agent with that retriever would produce.
- The model treats each reply as a function of its prompt. It treats the retrieved passages as a function of the question text.
- `agent/llm.py`, `agent/retriever.py` and `agent/prompt_tpl` are not part of this model. That includes query embedding, the faiss search and the template texts.
- Dataset loading, JSON and JSONL parsing, and `json.dumps` serialisation are left out. The model works on the parsed records: the label list, the `(custom_id, content)` pairs of the output lines, and the test-set questions. Reading the reply out of the JSON response assumes every field is present.
- Writing files is left out: the downloaded output, the score file and the batch input file's bytes. The batch input file is modelled as the sequence of records written to it.
- Console output, progress bars and the `main` functions that chain the steps are left out.
- `time.sleep(POLL_INTERVAL)` is left out. Polling is a walk over a finite sequence of observed statuses. `None` means the observations ran out while the loop would still be polling, so the model does not claim that polling terminates.
- `Scoring.Accuracy`: the accuracy is an exact real number, not a floating-point value. The `%.2f` formatting of the report is not modelled.
- `PyBuiltins.ParseInt`: only ASCII digits are modelled. Python's `int` also accepts other Unicode decimal digits. So `Evaluate.Prediction` and `EvaluateKmmluTest.ReplyVerdict` raise ValueError on a reply such as a fullwidth `'３'`, and `Evaluate.LineHit` never counts such a line as correct, while Python parses it and may count it as correct.
- `PyBuiltins.UpperChar`: only ASCII letters are upper-cased. Python's `str.upper()` also maps other lower-case letters (`'é'` to `'É'`) and can make a string longer (`'ß'` becomes `'SS'`).
- `PyBuiltins.UpperSpec`: its "keeps the length" clause holds for the ASCII-only model, not for Python's `upper()`, which can lengthen a string.
- `Evaluate.PredictionCases`: for a reply whose first non-blank character is a non-ASCII lower-case letter, the ValueError literal differs from Python's. Python names the upper-cased character (`'É'` for a reply starting with `'é'`, `'S'` for one starting with `'ß'`); the model names the character unchanged. Whether a line raises, and whether it is a hit, does not depend on this, because upper-casing never turns a non-digit into a digit.
- The batch-input builder and the scorers load the test set from different places: `scripts/build_batch_input.py` reads a JSON file, while both scorers use the dataset loader. The model assumes both give the same questions in the same order.
- The model keeps the code's set of terminal statuses: completed, failed and cancelled. A job that ends `expired` keeps the loop polling.
- The model keeps these behaviours of the code:
  - A reply whose first non-blank character is not a digit (for example the letter answers "A" to "D") does not count as a miss. `int(pred)` raises ValueError and the whole scoring run aborts (`Evaluate.LetterAnswersExample`).
  - A line whose identifier has no label counts toward `total` but never toward `correct`; it is not skipped or reported separately.
  - `evaluate_kmmlu_test.py` has no zero guard: an empty test set raises ZeroDivisionError.
