/**
 * scripts/build_batch_input.py: write one chat-completion request per test
 * question, in test-set order, to the batch input file. Each request
 * carries the identifier the scorer later joins on, and a prompt grounded
 * in the retrieved passages joined by blank lines.
 */
module BuildBatchInput {
  import opened Wrappers
  import opened PyBuiltins
  import opened CustomIds
  import opened Kmmlu
  import Evaluate

  datatype Message = Message(role: string, content: string)

  /** The `body` of a request: a chat completion. */
  datatype ChatBody = ChatBody(model: string, messages: seq<Message>, temperature: real, maxTokens: int)

  /** One line of the batch input file. */
  datatype BatchRequest = BatchRequest(customId: string, httpMethod: string, url: string, body: ChatBody)

  /** `"\n\n".join(context_chunks)`: the grounding block, passages in retrieval order. */
  function Context(chunks: seq<string>): string {
    Join("\n\n", chunks)
  }

  /**
   * The record written for the idx-th question (1-based): `format` stands
   * for `PROMPT_TPL.format` applied to the question's fields and the context.
   */
  function RequestFor(idx: nat, q: Question, chunks: seq<string>, format: (PromptFields, string) -> string)
    : BatchRequest
  {
    var prompt := format(Fields(q), Context(chunks));
    BatchRequest(CustomId(idx), "POST", "/v1/chat/completions",
                 ChatBody("gpt-4o-mini", [Message("user", prompt)], 0.0, 1))
  }

  /**
   * The records of the whole file: `retrieve` stands for
   * `agent.retriever.retrieve`, called with the question text.
   */
  function Requests(testSet: seq<Question>, retrieve: string -> seq<string>, format: (PromptFields, string) -> string)
    : (rs: seq<BatchRequest>)
    ensures |rs| == |testSet|
  {
    seq(|testSet|, k requires 0 <= k < |testSet| => RequestFor(k + 1, testSet[k], retrieve(testSet[k].question), format))
  }

  /** The batch input file, opened for writing: the records written so far, in order. */
  class JsonlFile {
    var records: seq<BatchRequest>

    /** `BATCH_IN.open("w")`: the file starts empty. */
    constructor Create()
      ensures records == []
    {
      records := [];
    }

    /** `f.write(json.dumps(record) + "\n")`: one more line at the end. */
    method Write(rec: BatchRequest)
      modifies this
      ensures records == old(records) + [rec]
    {
      records := records + [rec];
    }
  }

  /**
   * `main`: one record per question, written in test-set order, the
   * idx-th (from 1) with identifier `q%04d` of idx.
   */
  method BuildBatchInputFile(testSet: seq<Question>, retrieve: string -> seq<string>,
                             format: (PromptFields, string) -> string)
    returns (f: JsonlFile)
    ensures fresh(f)
    ensures f.records == Requests(testSet, retrieve, format)
  {
    f := new JsonlFile.Create();
    ghost var all := Requests(testSet, retrieve, format);
    var idx := 1;
    while idx <= |testSet|
      invariant 1 <= idx <= |testSet| + 1
      invariant f.records == all[..idx - 1]
    {
      var q := testSet[idx - 1];
      var contextChunks := retrieve(q.question);
      var rec := RequestFor(idx, q, contextChunks, format);
      RequestsAt(testSet, retrieve, format, idx - 1);
      assert all[..idx] == all[..idx - 1] + [rec];
      f.Write(rec);
      idx := idx + 1;
    }
    assert all[..idx - 1] == all;
  }

  /** The k-th record (from 0) is the request for the (k+1)-th question. */
  lemma RequestsAt(testSet: seq<Question>, retrieve: string -> seq<string>,
                   format: (PromptFields, string) -> string, k: nat)
    requires k < |testSet|
    ensures Requests(testSet, retrieve, format)[k] == RequestFor(k + 1, testSet[k], retrieve(testSet[k].question), format)
  {
  }

  /**
   * Every record asks for `gpt-4o-mini` at temperature 0.0 with one output
   * token, by POST to `/v1/chat/completions`, whatever the question; its one
   * message is the user's, holding the prompt for that question.
   */
  lemma RequestShape(testSet: seq<Question>, retrieve: string -> seq<string>,
                     format: (PromptFields, string) -> string, k: nat)
    requires k < |testSet|
    ensures var r := Requests(testSet, retrieve, format)[k];
      r.httpMethod == "POST" && r.url == "/v1/chat/completions"
      && r.body.model == "gpt-4o-mini" && r.body.temperature == 0.0 && r.body.maxTokens == 1
      && |r.body.messages| == 1 && r.body.messages[0].role == "user"
      && r.body.messages[0].content == format(Fields(testSet[k]), Context(retrieve(testSet[k].question)))
  {
    RequestsAt(testSet, retrieve, format, k);
  }

  /** No two records of a file share an identifier. */
  lemma RequestIdsDistinct(testSet: seq<Question>, retrieve: string -> seq<string>,
                           format: (PromptFields, string) -> string, j: nat, k: nat)
    requires j < k < |testSet|
    ensures Requests(testSet, retrieve, format)[j].customId != Requests(testSet, retrieve, format)[k].customId
  {
    RequestsAt(testSet, retrieve, format, j);
    RequestsAt(testSet, retrieve, format, k);
    CustomIdInjective(j + 1, k + 1);
  }

  /**
   * The identifier of the k-th record (from 0) is the one the scorer files
   * the k-th answer under: its line is judged against that question's label.
   */
  lemma RequestJoinsLabel(testSet: seq<Question>, retrieve: string -> seq<string>,
                          format: (PromptFields, string) -> string, k: nat)
    requires k < |testSet|
    ensures Evaluate.LabelOf(Answers(testSet), Requests(testSet, retrieve, format)[k].customId)
            == Some(testSet[k].answer)
  {
    RequestsAt(testSet, retrieve, format, k);
    Evaluate.LabelOfQuestion(Answers(testSet), k + 1);
  }

  /**
   * The context holds every retrieved passage at its place, in retrieval
   * order, with exactly a blank line between two neighbours: no passage is
   * dropped, reordered or merged.
   */
  lemma ContextLayout(chunks: seq<string>, k: nat)
    requires k < |chunks|
    ensures Offset("\n\n", chunks, k) + |chunks[k]| <= |Context(chunks)|
    ensures Context(chunks)[Offset("\n\n", chunks, k)..Offset("\n\n", chunks, k) + |chunks[k]|] == chunks[k]
    ensures k + 1 < |chunks| ==>
      Offset("\n\n", chunks, k + 1) <= |Context(chunks)|
      && Context(chunks)[Offset("\n\n", chunks, k) + |chunks[k]|..Offset("\n\n", chunks, k + 1)] == "\n\n"
  {
    JoinPart("\n\n", chunks, k);
    if k + 1 < |chunks| {
      JoinSeparator("\n\n", chunks, k);
    }
  }
}
