/** The records of the KMMLU Criminal-Law test split, as the scripts read them. */
module Kmmlu {

  /** One multiple-choice question; `answer` is the integer label of the right option. */
  datatype Question = Question(question: string, a: string, b: string, c: string, d: string, answer: int)

  /** The named arguments a prompt template is formatted with (never the answer). */
  datatype PromptFields = PromptFields(question: string, a: string, b: string, c: string, d: string)

  function Fields(q: Question): PromptFields {
    PromptFields(q.question, q.a, q.b, q.c, q.d)
  }

  /** The `answer` column of the test set, in dataset order. */
  function Answers(testSet: seq<Question>): (labels: seq<int>)
    ensures |labels| == |testSet|
    ensures forall k :: 0 <= k < |testSet| ==> labels[k] == testSet[k].answer
  {
    seq(|testSet|, k requires 0 <= k < |testSet| => testSet[k].answer)
  }
}
