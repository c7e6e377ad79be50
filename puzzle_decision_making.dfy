/**
 * The decision layer of the LLM Puzzle Break extension
 * (`PuzzleDecisionMaker.decideNextAction` in puzzle_decision_making.js): a
 * request and the recently asked questions become an action plan.
 */
module PuzzleDecisionMaking {
  import opened Runtime
  import opened LlmService
  import opened PuzzlePerception

  /** The two action plans: `GENERATE_PUZZLE` and `EVALUATE_WITH_LLM`. */
  datatype Plan =
    | GeneratePuzzlePlan(difficulty: string, puzzleType: string, askedHistory: seq<string>)
    | EvaluateWithLlm(questionData: Puzzle, userAnswer: string)

  /** `decideNextAction(perceivedRequest, askedHistory)` */
  function DecideNextAction(perceivedRequest: Option<Request>, askedHistory: seq<string>): Option<Plan>
  {
    match perceivedRequest
    case None => None
    case Some(NewPuzzle(difficulty, puzzleType)) => Some(GeneratePuzzlePlan(difficulty, puzzleType, askedHistory))
    case Some(AnswerEvaluation(questionData, userAnswer)) => Some(EvaluateWithLlm(questionData, userAnswer))
  }

  /** The request a plan was decided from: the inverse of `DecideNextAction`. */
  function PlannedRequest(plan: Plan): Request
  {
    match plan
    case GeneratePuzzlePlan(difficulty, puzzleType, _) => NewPuzzle(difficulty, puzzleType)
    case EvaluateWithLlm(questionData, userAnswer) => AnswerEvaluation(questionData, userAnswer)
  }

  /**
   * A request always yields a plan that carries its fields unchanged; a
   * generation plan carries the history as given, an evaluation plan none.
   */
  lemma DecisionKeepsRequest(request: Request, askedHistory: seq<string>)
    ensures DecideNextAction(Some(request), askedHistory).Some?
    ensures PlannedRequest(DecideNextAction(Some(request), askedHistory).value) == request
    ensures request.NewPuzzle? <==> DecideNextAction(Some(request), askedHistory).value.GeneratePuzzlePlan?
    ensures request.NewPuzzle? ==> DecideNextAction(Some(request), askedHistory).value.askedHistory == askedHistory
  {
  }

  /** No request, no plan. */
  lemma NoRequestNoPlan(askedHistory: seq<string>)
    ensures DecideNextAction(None, askedHistory).None?
  {
  }
}
