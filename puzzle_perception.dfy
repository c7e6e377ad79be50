/**
 * The perception layer of the LLM Puzzle Break extension
 * (`PuzzlePerception.interpretRequest` in puzzle_perception.js): a message
 * from the popup becomes a typed request, or nothing when its type is not
 * handled or a field it needs is missing.
 */
module PuzzlePerception {
  import opened Runtime
  import opened LlmService

  /**
   * A message from the popup. `kind` is its `type` tag; a string field that
   * is absent or empty is "". `questionData` is `None` when falsy, and
   * `userAnswer` is `None` when undefined (the empty answer is a value).
   */
  datatype Message = Message(kind: string, difficulty: string, puzzleType: string,
                             questionData: Option<Puzzle>, userAnswer: Option<string>)

  /** The two structured requests: `REQUEST_NEW_PUZZLE` and `EVALUATE_ANSWER`. */
  datatype Request =
    | NewPuzzle(difficulty: string, puzzleType: string)
    | AnswerEvaluation(questionData: Puzzle, userAnswer: string)

  const GetNewQuestion := "getNewQuestion"
  const EvaluateAnswerType := "evaluateAnswer"

  /** `interpretRequest(message)` */
  function InterpretRequest(message: Message): Option<Request>
  {
    if message.kind == GetNewQuestion && message.difficulty != "" && message.puzzleType != "" then
      Some(NewPuzzle(message.difficulty, message.puzzleType))
    else if message.kind == EvaluateAnswerType && message.questionData.Some? && message.userAnswer.Some? then
      Some(AnswerEvaluation(message.questionData.value, message.userAnswer.value))
    else
      None
  }

  /** A new-puzzle request is recognised exactly when both of its fields are given, and carries exactly them. */
  lemma NewPuzzleRecognised(message: Message)
    requires message.kind == GetNewQuestion
    ensures InterpretRequest(message).Some? <==> message.difficulty != "" && message.puzzleType != ""
    ensures InterpretRequest(message).Some? ==>
      InterpretRequest(message) == Some(NewPuzzle(message.difficulty, message.puzzleType))
  {
  }

  /** An evaluation request needs question data and a defined answer; the empty answer is accepted. */
  lemma EvaluationRecognised(message: Message)
    requires message.kind == EvaluateAnswerType
    ensures InterpretRequest(message).Some? <==> message.questionData.Some? && message.userAnswer.Some?
    ensures InterpretRequest(message).Some? ==>
      InterpretRequest(message) == Some(AnswerEvaluation(message.questionData.value, message.userAnswer.value))
    ensures message.questionData.Some? && message.userAnswer == Some("") ==>
      InterpretRequest(message) == Some(AnswerEvaluation(message.questionData.value, ""))
  {
  }

  /** Every other message type is not recognised. */
  lemma OtherTypesIgnored(message: Message)
    requires message.kind != GetNewQuestion && message.kind != EvaluateAnswerType
    ensures InterpretRequest(message).None?
  {
  }

  /**
   * The message the popup sends for a request (`getNewQuestion` and
   * `submitAnswer` in popup.js), with the fields the other type does not
   * carry left out.
   */
  function RequestMessage(request: Request): Message
  {
    match request
    case NewPuzzle(difficulty, puzzleType) => Message(GetNewQuestion, difficulty, puzzleType, None, None)
    case AnswerEvaluation(questionData, userAnswer) => Message(EvaluateAnswerType, "", "", Some(questionData), Some(userAnswer))
  }

  /** A request with its fields given survives the trip through its message unchanged. */
  lemma InterpretRequestMessage(request: Request)
    requires request.NewPuzzle? ==> request.difficulty != "" && request.puzzleType != ""
    ensures InterpretRequest(RequestMessage(request)) == Some(request)
  {
  }
}
