/** The value types of tlm/types/base.py: enums, failures, field metadata,
    answer-choice tokens, evals, and the workflow-to-similarity mapping. */
module Types {
  import opened Wrappers

  /** The workflow presets referenced by the scoring engine. */
  datatype WorkflowType = QA | Classification | BinaryClassification | Rag | StructuredOutputScoring | DefaultWorkflow

  datatype SimilarityMeasure = Jaccard | EmbeddingSmall | EmbeddingLarge | Code | Statement

  /** SimilarityMeasure.for_workflow. */
  function ForWorkflow(w: WorkflowType): (m: SimilarityMeasure)
    ensures m == Statement <==> w == QA || w == DefaultWorkflow
    ensures m == EmbeddingSmall <==> w == Classification
    ensures m == EmbeddingLarge <==> w == BinaryClassification
    ensures m == Code <==> w == Rag
    ensures m == Jaccard <==> w == StructuredOutputScoring
  {
    match w
    case QA => Statement
    case Classification => EmbeddingSmall
    case BinaryClassification => EmbeddingLarge
    case Rag => Code
    case StructuredOutputScoring => Jaccard
    case DefaultWorkflow => Statement
  }

  /** ExtractedResponseField: the keys under which parsed parts of a
      completion are stored. */
  datatype ResponseField = Message | Answer | Explanation | ScoreField | MappedScore {
    function Key(): string {
      match this
      case Message => "response"
      case Answer => "answer"
      case Explanation => "reasoning"
      case ScoreField => "score"
      case MappedScore => "mapped_score"
    }
  }

  /** Distinct fields are stored under distinct keys. */
  lemma KeysDistinct(f: ResponseField, g: ResponseField)
    ensures f.Key() == g.Key() <==> f == g
  {
  }

  datatype CompletionFailureType = ApiError | Timeout | RuntimeError | Parse

  /** A model call that did not produce a completion: optional error text and
      an optional kind, nothing else. */
  datatype CompletionFailure = CompletionFailure(error: Option<string>, kind: Option<CompletionFailureType>)

  datatype FieldMetadata = FieldMetadata(score: real, explanation: string)

  /** A token the model may answer with, and whether it affirms. */
  datatype AnswerChoiceToken = AnswerChoiceToken(token: string, positive: bool)

  /** One alternative of a position's top log-probabilities. `prob` is
      exp(logprob), supplied rather than computed. */
  datatype TopLogprob = TopLogprob(token: string, prob: real)

  /** One generated token with its probability and its alternatives. */
  datatype TokenLogprob = TokenLogprob(token: string, prob: real, top: seq<TopLogprob>)

  datatype Eval = Eval(
    name: string,
    criteria: string,
    queryIdentifier: Option<string>,
    contextIdentifier: Option<string>,
    responseIdentifier: Option<string>)

  /** What the scoring code reads of a completion's template. */
  datatype TemplateInfo = TemplateInfo(answerChoiceTokens: Option<seq<AnswerChoiceToken>>)
}
