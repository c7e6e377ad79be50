/**
 * The service worker of the LLM Puzzle Break extension (background.js): the
 * request handler that runs perception, decision and action for one popup
 * message, keeps the puzzle history and the score, and answers exactly once;
 * and the session reset done when the extension is installed, updated or the
 * browser starts.
 *
 * The popup's `sendResponse` callback is a port that records what was sent.
 * The LLM service calls are the collaborators of `PuzzleAction.Execute`.
 */
module Background {
  import opened Runtime
  import opened LlmService
  import opened MemoryStore
  import opened PuzzlePerception
  import opened PuzzleDecisionMaking
  import opened PuzzleAction

  /** A response to the popup: a status record plus, when the handler sets it, the `score` field. */
  datatype Response = Response(result: ActionResult, score: Option<int>)

  const UnknownRequest := "Unknown request received."
  const OrchestrationPrefix := "Orchestration error: "
  /** The message of the TypeError raised when the message itself is null. */
  const NullMessageError := "Cannot read properties of null (reading 'type')"

  /** `status === "success"` */
  predicate IsSuccess(result: ActionResult)
  {
    !result.Failed?
  }

  /** The `sendResponse` callback of one message: it records every response sent through it. */
  class ResponsePort {
    var sent: seq<Response>

    constructor ()
      ensures sent == []
    {
      sent := [];
    }

    method Send(response: Response)
      modifies this
      ensures sent == old(sent) + [response]
    {
      sent := sent + [response];
    }
  }

  /** The plan decided for a recognised message, given the history read from storage. */
  function PlanFor(request: Request, storedHistory: seq<string>): Plan
  {
    DecideNextAction(Some(request), if request.NewPuzzle? then storedHistory else []).value
  }

  /**
   * `handleRequest(message, sendResponse)`. A `None` message is a null
   * message, whose `type` cannot be read.
   */
  method HandleRequest(mem: Memory, port: ResponsePort, message: Option<Message>,
                       generate: (string, string, HistoryArg) -> Attempt<Option<Puzzle>>,
                       evaluate: (string, string, string, string) -> Attempt<Verdict>)
    requires mem.Valid()
    modifies mem, port
    ensures mem.Valid()
    ensures mem.sync == old(mem.sync) && mem.syncAvailable == old(mem.syncAvailable)
    ensures mem.sessionAvailable == old(mem.sessionAvailable)
    // exactly one response is sent
    ensures |port.sent| == |old(port.sent)| + 1 && port.sent[..|old(port.sent)|] == old(port.sent)
    // a null message: the catch path reports score 0, and nothing is stored
    ensures message.None? ==>
      && port.sent[|port.sent| - 1] == Response(Failed(OrchestrationPrefix + NullMessageError), Some(0))
      && mem.session == old(mem.session)
    // an unrecognised request: no score field, and nothing is stored
    ensures message.Some? && InterpretRequest(message.value).None? ==>
      && port.sent[|port.sent| - 1] == Response(Failed(UnknownRequest), None)
      && mem.session == old(mem.session)
    // a recognised request: the action result, with the score and storage updates of its outcome
    ensures message.Some? && InterpretRequest(message.value).Some? ==>
      var plan := PlanFor(InterpretRequest(message.value).value, old(mem.ReadHistory()));
      var result := Execute(Some(plan), old(mem.ReadApiKey()), generate, evaluate);
      var response := port.sent[|port.sent| - 1];
      && response.result == result
      && (if plan.GeneratePuzzlePlan? && result.PuzzleReady? && result.puzzle.question != "" then
            && mem.ReadHistory() == (if mem.sessionAvailable then AddQuestion(old(mem.ReadHistory()), result.puzzle.question) else [])
            && mem.session - {PuzzleHistoryKey} == old(mem.session) - {PuzzleHistoryKey}
            && (!mem.sessionAvailable ==> mem.session == old(mem.session))
            && response.score == Some(old(mem.ReadScore()))
          else if plan.EvaluateWithLlm? && IsSuccess(result) && result.Evaluated? && result.result == Correct then
            && response.score == Some(old(mem.ReadScore()) + 1)
            && mem.ReadHistory() == old(mem.ReadHistory())
            && mem.session == (if mem.sessionAvailable then old(mem.session)[ScoreKey := Number(old(mem.ReadScore()) + 1)]
                               else old(mem.session))
          else
            && mem.session == old(mem.session)
            && response.score == (if IsSuccess(result) && !plan.EvaluateWithLlm? then None else Some(old(mem.ReadScore()))))
  {
    var currentScore := 0;
    if message.None? {
      port.Send(Response(Failed(OrchestrationPrefix + NullMessageError), Some(currentScore)));
      return;
    }
    var perceivedRequest := InterpretRequest(message.value);
    if perceivedRequest.None? {
      port.Send(Response(Failed(UnknownRequest), None));
      return;
    }
    var askedHistory: seq<string> := [];
    currentScore := mem.GetScore();
    if perceivedRequest.value.NewPuzzle? {
      askedHistory := mem.GetPuzzleQuestionHistory();
    }
    var actionPlan := DecideNextAction(perceivedRequest, askedHistory);
    var apiKey := mem.GetApiKey();
    var actionResult := Execute(actionPlan, apiKey, generate, evaluate);
    var score: Option<int> := None;
    if actionPlan.value.GeneratePuzzlePlan? && IsSuccess(actionResult) && actionResult.PuzzleReady?
       && actionResult.puzzle.question != "" {
      mem.AddPuzzleQuestionToHistory(actionResult.puzzle.question);
      score := Some(currentScore);
    } else if actionPlan.value.EvaluateWithLlm? && IsSuccess(actionResult) {
      if actionResult.Evaluated? && actionResult.result == Correct {
        currentScore := mem.IncrementScore();
      }
      score := Some(currentScore);
    } else if !IsSuccess(actionResult) {
      score := Some(currentScore);
    }
    port.Send(Response(actionResult, score));
  }

  /**
   * The `onInstalled` and `onStartup` listeners: both remove the puzzle
   * history and the score from the session area, after which both read as
   * their defaults.
   */
  method ResetSession(mem: Memory)
    requires mem.Valid()
    modifies mem
    ensures mem.Valid()
    ensures mem.sync == old(mem.sync)
    ensures mem.syncAvailable == old(mem.syncAvailable) && mem.sessionAvailable == old(mem.sessionAvailable)
    ensures mem.session == if mem.sessionAvailable then old(mem.session) - {PuzzleHistoryKey, ScoreKey} else old(mem.session)
    ensures mem.ReadHistory() == [] && mem.ReadScore() == 0
  {
    mem.RemoveSessionKeys({PuzzleHistoryKey, ScoreKey});
  }
}
