/**
 * The LLM service of the LLM Puzzle Break extension (`LLMService` in
 * llm_service.js): the guards and the response classification of
 * `callGeminiAPI`, the prompt and history text of `generatePuzzle`, its
 * rejection of error and block sentinels, its `---`-separated
 * `Question:`/`Answer:` parser with a random pick, and the classifier of
 * `evaluateAnswer`.
 *
 * The HTTP exchange is not modelled: its outcome is an input (`Reply`), as are
 * the value of `Date.now()` and the value `Math.random()` returns.
 */
module LlmService {
  import opened Runtime
  import opened Strings

  /** `API_TIMEOUT_MS / 1000` */
  const ApiTimeoutSeconds: nat := 30

  /** A puzzle `{ question, answer }`. */
  datatype Puzzle = Puzzle(question: string, answer: string)

  /** The three results `evaluateAnswer` returns: 'Correct', 'Incorrect' and 'Error'. */
  datatype Verdict = Correct | Incorrect | EvalError

  /** One entry of the conversation sent to the API: `{ role: 'user', parts: [{ text }] }`. */
  datatype Turn = UserTurn(text: string)

  /**
   * How the HTTP exchange ended. `Answered` is an ok response whose JSON body
   * was read; its fields are the prompt feedback's block reason, the first
   * candidate's finish reason and the first candidate's first text part, each
   * "" when absent. `RequestFailed` carries the message of the error thrown inside
   * the `try` (network failure, non-ok status, unreadable JSON); `TimedOut` is
   * the abort after the timeout.
   */
  datatype Reply =
    | Answered(blockReason: string, finishReason: string, text: string)
    | RequestFailed(message: string)
    | TimedOut

  /** An `askedHistory` argument: an array of questions, or any value that is not an array. */
  datatype HistoryArg = ArrayArg(items: seq<string>) | NotArray(shown: string)

  // ---------------------------------------------------------------------
  // callGeminiAPI
  // ---------------------------------------------------------------------

  /** The prefixes that mark a result of `callGeminiAPI` as an error, a block or an early stop. */
  const ErrorTag := "Error:"
  const BlockedTag := "Blocked:"
  const StoppedTag := "Response stopped:"

  const MissingKeyError := ErrorTag + " API Key not set."
  const InvalidHistoryError := ErrorTag + " Invalid conversation history."
  const EmptyResponseError := ErrorTag + " Received empty response from AI."

  /** `callGeminiAPI(apiKey, conversationHistory)`, with the outcome of the request as `reply`. */
  function CallGeminiApi(apiKey: Option<string>, conversation: Option<seq<Turn>>, reply: Reply): string
  {
    if !Present(apiKey) then MissingKeyError
    else if conversation.None? || |conversation.value| == 0 then InvalidHistoryError
    else match reply
      case TimedOut => ErrorTag + " API call timed out after " + Decimal(ApiTimeoutSeconds) + " seconds."
      case RequestFailed(message) => ErrorTag + " " + message
      case Answered(blockReason, finishReason, text) =>
        if blockReason != "" then BlockedTag + " " + blockReason
        else if finishReason != "" && finishReason != "STOP" then StoppedTag + " " + finishReason
        else if text != "" then text
        else EmptyResponseError
  }

  /** A missing key or an unusable conversation is reported before any request is made: the reply plays no part. */
  lemma GuardsPrecedeRequest(apiKey: Option<string>, conversation: Option<seq<Turn>>, reply: Reply, other: Reply)
    requires !Present(apiKey) || conversation.None? || conversation.value == []
    ensures CallGeminiApi(apiKey, conversation, reply) == CallGeminiApi(apiKey, conversation, other)
    ensures CallGeminiApi(apiKey, conversation, reply) == if !Present(apiKey) then MissingKeyError else InvalidHistoryError
  {
  }

  /**
   * The result of a request is the model's text only when it was neither
   * blocked nor stopped early and the text is non-empty; every other outcome
   * is a string starting with "Error:", "Blocked:" or "Response stopped:".
   */
  lemma ReplyClassification(apiKey: Option<string>, turns: seq<Turn>, reply: Reply)
    requires Present(apiKey) && turns != []
    ensures var result := CallGeminiApi(apiKey, Some(turns), reply);
      if reply.Answered? && reply.blockReason == "" && (reply.finishReason == "" || reply.finishReason == "STOP")
         && reply.text != ""
      then result == reply.text
      else StartsWith(result, ErrorTag) || StartsWith(result, BlockedTag) || StartsWith(result, StoppedTag)
    ensures reply.Answered? && reply.blockReason != "" ==> StartsWith(CallGeminiApi(apiKey, Some(turns), reply), BlockedTag)
  {
    var result := CallGeminiApi(apiKey, Some(turns), reply);
    match reply
    case TimedOut =>
      StartsWithConcat(ErrorTag, " API call timed out after " + Decimal(ApiTimeoutSeconds) + " seconds.");
    case RequestFailed(message) =>
      StartsWithConcat(ErrorTag, " " + message);
    case Answered(blockReason, finishReason, text) =>
      if blockReason != "" {
        StartsWithConcat(BlockedTag, " " + blockReason);
      } else if finishReason != "" && finishReason != "STOP" {
        StartsWithConcat(StoppedTag, " " + finishReason);
      } else if text == "" {
        StartsWithConcat(ErrorTag, " Received empty response from AI.");
      }
  }

  // ---------------------------------------------------------------------
  // generatePuzzle: the history text and the prompt
  // ---------------------------------------------------------------------

  /** The entries of the history as `"i+1. q"` lines, in order. */
  function NumberedLines(items: seq<string>): (lines: seq<string>)
  {
    seq(|items|, i requires 0 <= i < |items| => Decimal(i + 1) + ". " + items[i])
  }

  /** The text `generatePuzzle` puts under RECENT HISTORY. */
  function HistoryString(askedHistory: HistoryArg): string
  {
    if askedHistory.ArrayArg? && |askedHistory.items| > 0 then Join(NumberedLines(askedHistory.items), "\n")
    else "None"
  }

  /** Anything but a non-empty array gives the text "None". */
  lemma HistoryStringNone(askedHistory: HistoryArg)
    requires askedHistory.NotArray? || askedHistory.items == []
    ensures HistoryString(askedHistory) == "None"
  {
  }

  /**
   * A non-empty history of single-line questions is written as one line per
   * entry, in order: splitting the text at line breaks gives back exactly the
   * numbered entries "1. q1", "2. q2", ...
   */
  lemma HistoryStringLines(items: seq<string>)
    requires items != []
    requires forall k :: 0 <= k < |items| ==> '\n' !in items[k]
    ensures var lines := SplitOn(HistoryString(ArrayArg(items)), "\n");
      && |lines| == |items|
      && forall k :: 0 <= k < |items| ==> lines[k] == Decimal(k + 1) + ". " + items[k]
  {
    var lines := NumberedLines(items);
    forall k | 0 <= k < |lines| ensures '\n' !in lines[k] {
      assert lines[k] == Decimal(k + 1) + ". " + items[k];
    }
    SplitJoin(lines, '\n');
  }

  // The fixed text of `generatePuzzle`'s prompt, line by line.
  const RequestLine := "Generate 3 different short, engaging puzzles or questions (any type like trivia, riddle, logic, math, word puzzle, unless type specified) suitable for an "
  const DifficultyLine := " difficulty level.\n"
  const DistinctLine := "IMPORTANT: Ensure the generated questions are significantly different from the following recently asked questions:\n"
  const HistoryStart := "--- RECENT HISTORY ---\n"
  const HistoryEnd := "\n--- END HISTORY ---\n"
  const RequestIdLine := "Request ID: "
  const FormatLines := "\n\nFormat the output *exactly* like this, with each puzzle separated by '---':\n"
  const FormatExample := "Question: [Question 1 text]\nAnswer: [Answer 1 text]\n---\nQuestion: [Question 2 text]\nAnswer: [Answer 2 text]\n---\nQuestion: [Question 3 text]\nAnswer: [Answer 3 text]"

  /** The part of `generatePuzzle`'s prompt that asks for three puzzles of a difficulty. */
  function PromptRequest(difficulty: string): string
  {
    RequestLine + difficulty + DifficultyLine + DistinctLine
  }

  /** The part of the prompt that shows the history text between two markers. */
  function PromptHistorySection(historyString: string): string
  {
    HistoryStart + historyString + HistoryEnd
  }

  /** The part of the prompt with the request time stamp and the expected output format. */
  function PromptFormat(timestamp: nat): string
  {
    RequestIdLine + Decimal(timestamp) + FormatLines + FormatExample
  }

  /** `generatePuzzle`'s prompt for a difficulty, a history text and the request time stamp. */
  function GenerationPrompt(difficulty: string, historyString: string, timestamp: nat): string
  {
    PromptRequest(difficulty) + PromptHistorySection(historyString) + PromptFormat(timestamp)
  }

  /**
   * The prompt shows the history text between its two HISTORY markers,
   * directly after the request lines.
   */
  lemma PromptShowsHistory(difficulty: string, historyString: string, timestamp: nat)
    ensures var prompt := GenerationPrompt(difficulty, historyString, timestamp);
      && OccursAt(prompt, HistoryStart + historyString + HistoryEnd, |PromptRequest(difficulty)|)
      && Contains(prompt, HistoryStart + historyString + HistoryEnd)
  {
    var section := PromptHistorySection(historyString);
    var prompt := GenerationPrompt(difficulty, historyString, timestamp);
    var i := |PromptRequest(difficulty)|;
    assert prompt[i..i + |section|] == section;
    assert OccursAt(prompt, section, i);
  }

  /**
   * For a fixed difficulty and time stamp, prompts built from different
   * history texts differ: the prompt carries the history text in full.
   */
  lemma PromptDeterminesHistory(difficulty: string, history1: string, history2: string, timestamp: nat)
    requires GenerationPrompt(difficulty, history1, timestamp) == GenerationPrompt(difficulty, history2, timestamp)
    ensures history1 == history2
  {
    var request := PromptRequest(difficulty);
    var format := PromptFormat(timestamp);
    Regroup(request, HistoryStart, history1, HistoryEnd, format);
    Regroup(request, HistoryStart, history2, HistoryEnd, format);
    MiddleDetermined(request + HistoryStart, history1, history2, HistoryEnd + format);
  }

  lemma Regroup(a: string, b: string, x: string, c: string, d: string)
    ensures a + (b + x + c) + d == (a + b) + x + (c + d)
  {
  }

  /** Equal texts with the same head and tail have the same middle. */
  lemma MiddleDetermined(before: string, x: string, y: string, after: string)
    requires before + x + after == before + y + after
    ensures x == y
  {
    var joined := before + x + after;
    assert |x| == |y|;
    assert joined[|before|..|before| + |x|] == x;
    assert (before + y + after)[|before|..|before| + |y|] == y;
  }

  // ---------------------------------------------------------------------
  // generatePuzzle: sentinels, block parser, random pick
  // ---------------------------------------------------------------------

  /** The separator between puzzles in the reply, and the two labels of a block, in lower case. */
  const BlockSeparator := "---"
  const QuestionMarker := "question:"
  const AnswerMarker := "answer:"

  /** The test `result && !result.startsWith('Error:') && !result.startsWith('Blocked:')`. */
  predicate UsableResult(result: string)
  {
    result != "" && !StartsWith(result, ErrorTag) && !StartsWith(result, BlockedTag)
  }

  /**
   * The group captured by `/label\s*(.*)/i` at its first match in `block`
   * (`label` in lower case), or `None` when the label does not occur: the
   * white space after the label is skipped, line breaks included, and the
   * capture runs to the end of that line.
   */
  function MatchField(block: string, marker: string): Option<string>
  {
    match IndexOf(Lower(block), marker)
    case None => None
    case Some(i) => Some(LineHead(TrimStart(block[i + |marker|..])))
  }

  /** A non-empty capture starts with a character that is not white space. */
  lemma MatchFieldStartsWithNonSpace(block: string, marker: string)
    requires MatchField(block, marker).Some? && MatchField(block, marker).value != ""
    ensures !IsJsSpace(MatchField(block, marker).value[0])
  {
  }

  /** One block of the reply: skipped when blank or when a label's capture is missing or empty. */
  function ParseBlock(block: string): Option<Puzzle>
  {
    if Trim(block) == "" then None
    else
      var questionMatch := MatchField(block, QuestionMarker);
      var answerMatch := MatchField(block, AnswerMarker);
      if questionMatch.Some? && questionMatch.value != "" && answerMatch.Some? && answerMatch.value != ""
      then Some(Puzzle(Trim(questionMatch.value), Trim(answerMatch.value)))
      else None
  }

  /** Both fields of a parsed puzzle are non-empty and already trimmed. */
  predicate WellFormedPuzzle(p: Puzzle)
  {
    p.question != "" && p.answer != "" && Trim(p.question) == p.question && Trim(p.answer) == p.answer
  }

  lemma ParseBlockWellFormed(block: string)
    requires ParseBlock(block).Some?
    ensures WellFormedPuzzle(ParseBlock(block).value)
  {
    var q := MatchField(block, QuestionMarker).value;
    var a := MatchField(block, AnswerMarker).value;
    MatchFieldStartsWithNonSpace(block, QuestionMarker);
    MatchFieldStartsWithNonSpace(block, AnswerMarker);
    TrimKeepsLeadingNonSpace(q);
    TrimKeepsLeadingNonSpace(a);
    TrimIdempotent(q);
    TrimIdempotent(a);
  }

  /** The puzzles parsed from the blocks, in block order. */
  function ParsedAll(blocks: seq<string>): seq<Puzzle>
  {
    if blocks == [] then []
    else ParsedAll(blocks[..|blocks| - 1])
         + (match ParseBlock(blocks[|blocks| - 1]) case Some(p) => [p] case None => [])
  }

  /** There are at most as many puzzles as blocks. */
  lemma {:induction false} ParsedAllLength(blocks: seq<string>)
    ensures |ParsedAll(blocks)| <= |blocks|
    decreases |blocks|
  {
    if blocks != [] {
      ParsedAllLength(blocks[..|blocks| - 1]);
    }
  }

  /** Every parsed puzzle is the parse of one of the blocks and is well formed; there are at most as many as blocks. */
  lemma {:induction false} ParsedAllFromBlocks(blocks: seq<string>)
    ensures |ParsedAll(blocks)| <= |blocks|
    ensures forall p :: p in ParsedAll(blocks) ==>
      WellFormedPuzzle(p) && exists b :: b in blocks && ParseBlock(b) == Some(p)
    decreases |blocks|
  {
    ParsedAllLength(blocks);
    if blocks != [] {
      var init := blocks[..|blocks| - 1];
      var last := blocks[|blocks| - 1];
      var tail := match ParseBlock(last) case Some(p) => [p] case None => [];
      assert ParsedAll(blocks) == ParsedAll(init) + tail;
      ParsedAllFromBlocks(init);
      if ParseBlock(last).Some? {
        ParseBlockWellFormed(last);
      }
      forall p | p in ParsedAll(blocks)
        ensures WellFormedPuzzle(p) && exists b :: b in blocks && ParseBlock(b) == Some(p)
      {
        if p in ParsedAll(init) {
          var b :| b in init && ParseBlock(b) == Some(p);
          assert b in blocks;
        } else {
          assert p in tail;
          assert last in blocks;
        }
      }
    }
  }

  /** A block whose parse succeeds contributes its puzzle. */
  lemma {:induction false} ParsedAllComplete(blocks: seq<string>, b: string)
    requires b in blocks && ParseBlock(b).Some?
    ensures ParseBlock(b).value in ParsedAll(blocks)
    decreases |blocks|
  {
    if b != blocks[|blocks| - 1] {
      assert b in blocks[..|blocks| - 1];
      ParsedAllComplete(blocks[..|blocks| - 1], b);
    }
  }

  /** The `for (const block of puzzleBlocks)` loop that collects the puzzles. */
  method ParsePuzzles(puzzleBlocks: seq<string>) returns (puzzles: seq<Puzzle>)
    ensures puzzles == ParsedAll(puzzleBlocks)
  {
    puzzles := [];
    var i := 0;
    while i < |puzzleBlocks|
      invariant 0 <= i <= |puzzleBlocks|
      invariant puzzles == ParsedAll(puzzleBlocks[..i])
    {
      var block := puzzleBlocks[i];
      assert puzzleBlocks[..i + 1][..i] == puzzleBlocks[..i];
      if Trim(block) == "" {
        i := i + 1;
        continue;
      }
      var questionMatch := MatchField(block, QuestionMarker);
      var answerMatch := MatchField(block, AnswerMarker);
      if questionMatch.Some? && questionMatch.value != "" && answerMatch.Some? && answerMatch.value != "" {
        puzzles := puzzles + [Puzzle(Trim(questionMatch.value), Trim(answerMatch.value))];
      }
      i := i + 1;
    }
    assert puzzleBlocks[..i] == puzzleBlocks;
  }

  /** What `callGeminiAPI` returns to `generatePuzzle` for its one-turn conversation. */
  function GenerationResult(apiKey: Option<string>, difficulty: string, askedHistory: HistoryArg,
                            timestamp: nat, reply: Reply): string
  {
    CallGeminiApi(apiKey, Some([UserTurn(GenerationPrompt(difficulty, HistoryString(askedHistory), timestamp))]), reply)
  }

  /**
   * `generatePuzzle(apiKey, difficulty, askedHistory)`, given the time stamp,
   * the outcome of the request and the value of `Math.random()`.
   */
  method GeneratePuzzle(apiKey: Option<string>, difficulty: string, askedHistory: HistoryArg,
                        timestamp: nat, reply: Reply, roll: real)
    returns (puzzle: Option<Puzzle>)
    requires IsRoll(roll)
    // an empty result or an error/block sentinel gives null
    ensures !UsableResult(GenerationResult(apiKey, difficulty, askedHistory, timestamp, reply)) ==> puzzle.None?
    // otherwise null exactly when no block parses
    ensures var result := GenerationResult(apiKey, difficulty, askedHistory, timestamp, reply);
      UsableResult(result) ==> (puzzle.None? <==> ParsedAll(SplitOn(result, BlockSeparator)) == [])
    // the puzzle returned is one of the parsed ones, with non-empty trimmed fields
    ensures var result := GenerationResult(apiKey, difficulty, askedHistory, timestamp, reply);
      puzzle.Some? ==> puzzle.value in ParsedAll(SplitOn(result, BlockSeparator)) && WellFormedPuzzle(puzzle.value)
  {
    var historyString := HistoryString(askedHistory);
    var prompt := GenerationPrompt(difficulty, historyString, timestamp);
    var result := CallGeminiApi(apiKey, Some([UserTurn(prompt)]), reply);
    puzzle := None;
    if UsableResult(result) {
      var puzzles := ParsePuzzles(SplitOn(result, BlockSeparator));
      ParsedAllFromBlocks(SplitOn(result, BlockSeparator));
      if |puzzles| > 0 {
        var randomIndex := RandomIndex(roll, |puzzles|);
        puzzle := Some(puzzles[randomIndex]);
      }
    }
  }

  // ---------------------------------------------------------------------
  // evaluateAnswer
  // ---------------------------------------------------------------------

  // The fixed text of `evaluateAnswer`'s prompt.
  const QuestionLead := "Question: "
  const CorrectAnswerLead := "\nCorrect Answer: "
  const UserAnswerLead := "\nUser's Answer: "
  const JudgeInstructions := "\n\nIs the user's answer correct or a very close match/synonym for the correct answer? Consider potential typos or minor phrasing differences.\nRespond ONLY with the single word 'CORRECT' (all caps) if it is correct/close enough.\nRespond ONLY with the single word 'INCORRECT' (all caps) if it is wrong."

  /** `evaluateAnswer`'s prompt. */
  function EvaluationPrompt(question: string, userAnswer: string, correctAnswer: string): string
  {
    QuestionLead + question + CorrectAnswerLead + correctAnswer + UserAnswerLead + userAnswer + JudgeInstructions
  }

  /** The two verdict words the judge is told to answer with. */
  const CorrectWord := "CORRECT"
  const IncorrectWord := "INCORRECT"

  /** How `evaluateAnswer` reads the model's reply, as written. */
  function ClassifyEvaluation(result: string): Verdict
  {
    if result == "" then EvalError
    else
      var evaluation := Upper(Trim(result));
      if evaluation == CorrectWord then Correct
      else if evaluation == IncorrectWord then Incorrect
      else if Contains(evaluation, CorrectWord) then Correct
      else if Contains(evaluation, IncorrectWord) then Incorrect
      else EvalError
  }

  /** Every text containing "INCORRECT" contains "CORRECT". */
  lemma IncorrectContainsCorrect(s: string)
    requires Contains(s, IncorrectWord)
    ensures Contains(s, CorrectWord)
  {
    var i :| 0 <= i <= |s| - 9 && OccursAt(s, IncorrectWord, i);
    assert IncorrectWord[2..] == CorrectWord;
    assert s[i + 2..i + 9] == s[i..i + 9][2..];
    assert OccursAt(s, CorrectWord, i + 2);
  }

  /**
   * The verdict is Incorrect only for a reply that is exactly INCORRECT up to
   * case and surrounding white space: the `includes('INCORRECT')` fallback is
   * never reached.
   */
  lemma IncorrectOnlyWhenExact(result: string)
    ensures ClassifyEvaluation(result) == Incorrect <==> result != "" && Upper(Trim(result)) == IncorrectWord
  {
    if result != "" {
      var evaluation := Upper(Trim(result));
      if Contains(evaluation, IncorrectWord) {
        IncorrectContainsCorrect(evaluation);
      }
    }
  }

  /** Any other reply containing CORRECT (up to case) is Correct; a reply containing neither word is an error. */
  lemma CorrectWhenContained(result: string)
    ensures ClassifyEvaluation(result) == Correct <==>
      result != "" && Upper(Trim(result)) != IncorrectWord && Contains(Upper(Trim(result)), CorrectWord)
    ensures ClassifyEvaluation(result) == EvalError <==>
      result == "" || !Contains(Upper(Trim(result)), CorrectWord)
  {
    if result != "" {
      var evaluation := Upper(Trim(result));
      if evaluation == CorrectWord {
        assert OccursAt(evaluation, CorrectWord, 0);
      }
      if evaluation == IncorrectWord {
        assert OccursAt(evaluation, CorrectWord, 2);
      }
      if Contains(evaluation, IncorrectWord) {
        IncorrectContainsCorrect(evaluation);
      }
    }
  }

  /**
   * A reply that is INCORRECT followed by more text, such as "INCORRECT.",
   * reads as INCORRECT once upper-cased and trimmed yet is not exactly that word.
   */
  lemma IncorrectWithTrailingText(suffix: string)
    requires suffix != [] && !IsJsSpace(suffix[|suffix| - 1])
    ensures var evaluation := Upper(Trim(IncorrectWord + suffix));
      evaluation != IncorrectWord && OccursAt(evaluation, IncorrectWord, 0)
  {
    var reply := IncorrectWord + suffix;
    TrimUnchanged(reply);
    var evaluation := Upper(reply);
    assert evaluation[0..9] == IncorrectWord;
    assert |evaluation| > 9;
  }

  /** A reply that says INCORRECT followed by more text, such as "INCORRECT.", is classified as Correct. */
  lemma PunctuatedIncorrectCountsAsCorrect(suffix: string)
    requires suffix != [] && !IsJsSpace(suffix[|suffix| - 1])
    ensures ClassifyEvaluation(IncorrectWord + suffix) == Correct
  {
    IncorrectWithTrailingText(suffix);
    var evaluation := Upper(Trim(IncorrectWord + suffix));
    IncorrectContainsCorrect(evaluation);
  }

  /** `evaluateAnswer(apiKey, question, userAnswer, correctAnswer)`, with the outcome of the request as `reply`. */
  function EvaluateAnswer(apiKey: Option<string>, question: string, userAnswer: string, correctAnswer: string,
                          reply: Reply): Verdict
  {
    ClassifyEvaluation(CallGeminiApi(apiKey, Some([UserTurn(EvaluationPrompt(question, userAnswer, correctAnswer))]), reply))
  }

  /** No sentinel string reads as INCORRECT: it starts with E, B or R. */
  lemma SentinelNeverIncorrect(result: string)
    requires StartsWith(result, ErrorTag) || StartsWith(result, BlockedTag) || StartsWith(result, StoppedTag)
    ensures Upper(Trim(result)) != IncorrectWord
  {
    assert result[0] == 'E' || result[0] == 'B' || result[0] == 'R' by {
      if StartsWith(result, ErrorTag) {
        assert result[0] == result[..|ErrorTag|][0] == ErrorTag[0];
      } else if StartsWith(result, BlockedTag) {
        assert result[0] == result[..|BlockedTag|][0] == BlockedTag[0];
      } else {
        assert result[0] == result[..|StoppedTag|][0] == StoppedTag[0];
      }
    }
    TrimKeepsLeadingNonSpace(result);
    assert Upper(Trim(result))[0] == result[0];
  }

  /**
   * When the model answers with text, the verdict is the classification of
   * that text; a blocked, stopped or failed request never yields Incorrect.
   */
  lemma EvaluateAnswerReadsReply(apiKey: Option<string>, question: string, userAnswer: string, correctAnswer: string,
                                 reply: Reply)
    requires Present(apiKey)
    ensures reply.Answered? && reply.blockReason == "" && (reply.finishReason == "" || reply.finishReason == "STOP")
            && reply.text != ""
            ==> EvaluateAnswer(apiKey, question, userAnswer, correctAnswer, reply) == ClassifyEvaluation(reply.text)
    ensures EvaluateAnswer(apiKey, question, userAnswer, correctAnswer, reply) == Incorrect ==>
      reply.Answered? && Upper(Trim(reply.text)) == IncorrectWord
  {
    var turns := [UserTurn(EvaluationPrompt(question, userAnswer, correctAnswer))];
    var result := CallGeminiApi(apiKey, Some(turns), reply);
    IncorrectOnlyWhenExact(result);
    ReplyClassification(apiKey, turns, reply);
    if !(reply.Answered? && reply.blockReason == "" && (reply.finishReason == "" || reply.finishReason == "STOP")
         && reply.text != "") {
      SentinelNeverIncorrect(result);
    }
  }

  /**
   * A failed request whose message mentions "correct" in any case, and does
   * not end in white space, reads as CORRECT: the sentinel
   * `Error: <message>` is classified as a correct answer, and the score
   * is incremented although the model never judged the answer.
   */
  lemma FailedRequestCanReadCorrect(apiKey: Option<string>, question: string, userAnswer: string, correctAnswer: string,
                                    message: string)
    requires Present(apiKey)
    requires Contains(Upper(message), CorrectWord)
    requires message != [] && !IsJsSpace(message[|message| - 1])
    ensures EvaluateAnswer(apiKey, question, userAnswer, correctAnswer, RequestFailed(message)) == Correct
  {
    var head := ErrorTag + " ";
    var result := head + message;
    assert CallGeminiApi(apiKey, Some([UserTurn(EvaluationPrompt(question, userAnswer, correctAnswer))]),
                         RequestFailed(message)) == result;
    assert result[0] == 'E' && result[|result| - 1] == message[|message| - 1];
    TrimUnchanged(result);
    assert Upper(result) == Upper(head) + Upper(message) + [];
    ContainsInfix(Upper(head), Upper(message), [], CorrectWord);
    assert result == ErrorTag + (" " + message);
    StartsWithConcat(ErrorTag, " " + message);
    SentinelNeverIncorrect(result);
  }

  const IncorrectKeyMessage := "incorrect key"

  /** The message "incorrect key" is one such: `Error: incorrect key` scores the answer as correct. */
  lemma IncorrectKeyReadsCorrect(apiKey: Option<string>, question: string, userAnswer: string, correctAnswer: string)
    requires Present(apiKey)
    ensures EvaluateAnswer(apiKey, question, userAnswer, correctAnswer, RequestFailed(IncorrectKeyMessage)) == Correct
  {
    var upper := Upper(IncorrectKeyMessage);
    assert upper[2..9] == CorrectWord;
    assert OccursAt(upper, CorrectWord, 2);
    FailedRequestCanReadCorrect(apiKey, question, userAnswer, correctAnswer, IncorrectKeyMessage);
  }
}
