/**
 * The action layer of the LLM Puzzle Break extension (`PuzzleAction.execute`
 * in puzzle_action.js): a plan is checked, the LLM service is called, and
 * its answer becomes a status record.
 *
 * The two LLM service calls are inputs: `generate(apiKey, difficulty,
 * historyArgument)` and `evaluate(apiKey, question, userAnswer,
 * correctAnswer)` stand for `LLMService.generatePuzzle` and
 * `LLMService.evaluateAnswer`, and either may throw.
 */
module PuzzleAction {
  import opened Runtime
  import opened LlmService
  import opened Strings
  import opened PuzzleDecisionMaking

  /**
   * A status record: `{status: "success", puzzle}`, `{status: "success",
   * result, correctAnswer}` (result 'Correct' or 'Incorrect') or
   * `{status: "error", message}`.
   */
  datatype ActionResult =
    | PuzzleReady(puzzle: Puzzle)
    | Evaluated(result: Verdict, correctAnswer: string)
    | Failed(message: string)

  const InvalidPlanError := "Internal error: Invalid action plan."
  const MissingKeyMessage := "API Key not set in options."
  const GenerationFailed := "Failed to generate puzzle from AI."
  const ExecutionErrorPrefix := "Execution error: "

  /** The string `evaluateAnswer` returns for a verdict. */
  function VerdictName(v: Verdict): string
  {
    match v
    case Correct => "Correct"
    case Incorrect => "Incorrect"
    case EvalError => "Error"
  }

  /**
   * The history argument `execute` hands to the generator: the plan's puzzle
   * type, placed in the parameter slot where `generatePuzzle` expects the
   * list of asked questions.
   */
  function GeneratorHistory(plan: Plan): HistoryArg
    requires plan.GeneratePuzzlePlan?
  {
    NotArray(plan.puzzleType)
  }

  /** `execute(actionPlan, apiKey)` */
  function Execute(plan: Option<Plan>, apiKey: Option<string>,
                   generate: (string, string, HistoryArg) -> Attempt<Option<Puzzle>>,
                   evaluate: (string, string, string, string) -> Attempt<Verdict>): ActionResult
  {
    if plan.None? then Failed(InvalidPlanError)
    else if !Present(apiKey) then Failed(MissingKeyMessage)
    else match plan.value
      case GeneratePuzzlePlan(difficulty, _, _) =>
        (match generate(apiKey.value, difficulty, GeneratorHistory(plan.value))
         case Threw(message) => Failed(ExecutionErrorPrefix + message)
         case Returned(Some(puzzle)) => PuzzleReady(puzzle)
         case Returned(None) => Failed(GenerationFailed))
      case EvaluateWithLlm(questionData, userAnswer) =>
        (match evaluate(apiKey.value, questionData.question, userAnswer, questionData.answer)
         case Threw(message) => Failed(ExecutionErrorPrefix + message)
         case Returned(verdict) =>
           if verdict == Correct || verdict == Incorrect then Evaluated(verdict, questionData.answer)
           else Failed(VerdictName(verdict)))
  }

  /**
   * A missing plan is reported before the key is looked at, and a missing key
   * before any LLM call: in both cases the collaborators play no part.
   */
  lemma ExecuteGuards(plan: Option<Plan>, apiKey: Option<string>,
                      generate: (string, string, HistoryArg) -> Attempt<Option<Puzzle>>,
                      evaluate: (string, string, string, string) -> Attempt<Verdict>,
                      otherGenerate: (string, string, HistoryArg) -> Attempt<Option<Puzzle>>,
                      otherEvaluate: (string, string, string, string) -> Attempt<Verdict>)
    requires plan.None? || !Present(apiKey)
    ensures Execute(plan, apiKey, generate, evaluate) == Execute(plan, apiKey, otherGenerate, otherEvaluate)
    ensures Execute(plan, apiKey, generate, evaluate) ==
      Failed(if plan.None? then InvalidPlanError else MissingKeyMessage)
  {
  }

  /**
   * A generation plan succeeds exactly when the generator returns a puzzle,
   * and then carries that puzzle. The generator is given the puzzle type as
   * its history argument, so the questions the plan carries play no part.
   */
  lemma ExecuteGeneration(difficulty: string, puzzleType: string, askedHistory: seq<string>,
                          otherHistory: seq<string>, apiKey: string,
                          generate: (string, string, HistoryArg) -> Attempt<Option<Puzzle>>,
                          evaluate: (string, string, string, string) -> Attempt<Verdict>)
    requires apiKey != ""
    ensures var outcome := Execute(Some(GeneratePuzzlePlan(difficulty, puzzleType, askedHistory)), Some(apiKey), generate, evaluate);
      && outcome == Execute(Some(GeneratePuzzlePlan(difficulty, puzzleType, otherHistory)), Some(apiKey), generate, evaluate)
      && (outcome.PuzzleReady? <==> generate(apiKey, difficulty, NotArray(puzzleType)).Returned?
                                    && generate(apiKey, difficulty, NotArray(puzzleType)).value.Some?)
      && (outcome.PuzzleReady? ==> Returned(Some(outcome.puzzle)) == generate(apiKey, difficulty, NotArray(puzzleType)))
      && (generate(apiKey, difficulty, NotArray(puzzleType)) == Returned(None) ==> outcome == Failed(GenerationFailed))
  {
  }

  /**
   * With the generator of the LLM service, the prompt's history section
   * always reads "None", whatever questions were asked before.
   */
  lemma ShippedGeneratorSeesNoHistory(difficulty: string, puzzleType: string, askedHistory: seq<string>, timestamp: nat)
    ensures var plan := GeneratePuzzlePlan(difficulty, puzzleType, askedHistory);
      GenerationPrompt(difficulty, HistoryString(GeneratorHistory(plan)), timestamp) == GenerationPrompt(difficulty, "None", timestamp)
  {
  }

  /**
   * An evaluation succeeds exactly when the evaluator returns Correct or
   * Incorrect, and then carries that verdict and the stored answer; an
   * evaluator result of 'Error' becomes an error whose message is "Error".
   */
  lemma ExecuteEvaluation(questionData: Puzzle, userAnswer: string, apiKey: string,
                          generate: (string, string, HistoryArg) -> Attempt<Option<Puzzle>>,
                          evaluate: (string, string, string, string) -> Attempt<Verdict>)
    requires apiKey != ""
    ensures var outcome := Execute(Some(EvaluateWithLlm(questionData, userAnswer)), Some(apiKey), generate, evaluate);
      var call := evaluate(apiKey, questionData.question, userAnswer, questionData.answer);
      && (outcome.Evaluated? <==> call.Returned? && call.value != EvalError)
      && (outcome.Evaluated? ==> outcome == Evaluated(call.value, questionData.answer))
      && (call == Returned(EvalError) ==> outcome == Failed("Error"))
      && !outcome.PuzzleReady?
  {
  }

  /** A thrown error becomes an error record whose message starts with "Execution error: ". */
  lemma ExecuteCatches(plan: Plan, apiKey: string,
                       generate: (string, string, HistoryArg) -> Attempt<Option<Puzzle>>,
                       evaluate: (string, string, string, string) -> Attempt<Verdict>)
    requires apiKey != ""
    requires plan.GeneratePuzzlePlan? ==> generate(apiKey, plan.difficulty, GeneratorHistory(plan)).Threw?
    requires plan.EvaluateWithLlm? ==>
      evaluate(apiKey, plan.questionData.question, plan.userAnswer, plan.questionData.answer).Threw?
    ensures var outcome := Execute(Some(plan), Some(apiKey), generate, evaluate);
      outcome.Failed? && StartsWith(outcome.message, ExecutionErrorPrefix)
  {
    var outcome := Execute(Some(plan), Some(apiKey), generate, evaluate);
    StartsWithConcat(ExecutionErrorPrefix, outcome.message[|ExecutionErrorPrefix|..]);
  }
}
