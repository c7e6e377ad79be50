# Web Wanderer and LLM Puzzle Break, modelled in Dafny

The repository holds two small browser extensions built on the same four
layers (perception, decision making, memory, action):

- **Web Wanderer** picks a random website from a catalog. The site's category
  must match one of the user's categories, optionally widened by an LLM. Sites
  visited recently are avoided for up to five random draws.
- **LLM Puzzle Break** is a trivia game. It asks the Gemini API for three
  puzzles, parses the `---`-separated reply and picks one at random. It then
  asks the same API to judge the user's answer. A background worker keeps the
  last five questions and a score in session storage.

A developer-context content script (keyword extraction, error and language
detection over page text) and the popup's HTML escaping are modelled too.

The model follows the code file by file:

| file | module | form |
|---|---|---|
| decision_making.js | `DecisionMaking` | methods with loops (`AggregateCategories`, `ChooseWebsite`) proved against specification functions |
| memory.js | `MemoryStore` | class `Memory` owning the sync and session storage maps |
| llm_service.js | `LlmService` | functions for the pure parts, methods for the parsing loop and the random pick |
| background.js | `Background` | method `HandleRequest` over a `Memory` and a `ResponsePort` |
| puzzle_perception.js, puzzle_decision_making.js, puzzle_action.js, perception.js | `PuzzlePerception`, `PuzzleDecisionMaking`, `PuzzleAction`, `Perception` | datatypes and total functions |
| content_script.js | `ContentScript` | functions for `extractKeywords`, `isLikelyError`, `detectLanguage`; methods for `analyzePage` |
| popup.js | `Popup` | functions for `escapeHtml` |

`Runtime` (option and outcome types, the random draw) and `Strings` (the
JavaScript string built-ins used) are shared support modules.

These conventions hold throughout:

- **Randomness.** `Math.random()` is a parameter `roll` in [0, 1). The index
  drawn is `floor(roll * n)`, exactly the source's expression.
- **Collaborators.** A collaborator that may throw returns an
  `Attempt<T> = Returned(value) | Threw`.
- **Absent strings.** A string that is absent, `null`, `undefined` or empty is
  written `""` when only its truthiness matters.

Some quirks of the code are modelled as written and proved as lemmas:

- base categories are not deduplicated;
- an empty site database gives `error`;
- the puzzle type is passed in the history argument, so the prompt's history section always reads "None";
- the `includes('INCORRECT')` branch is never taken;
- a failed request whose error message contains "correct" (such as `incorrect key`) is judged a correct answer and scores a point;
- the pattern branch of `isLikelyError` is subsumed by the keyword check.

## Model

| member | source | states |
|---|---|---|
| Runtime.RandomIndex | decision_making.js:90 | `Math.floor(Math.random() * n)` is a valid index into a list of n > 0 entries |
| DecisionMaking.AggregateCategories | decision_making.js:20-55 | the effective category list the loop builds equals `EffectiveCategories`: base list, expansion entries appended when new, defaults when empty |
| DecisionMaking.AddExpansionKeepsPrefix | decision_making.js:34-40 | adding expansion entries never changes or reorders the entries already present |
| DecisionMaking.AddExpansionCovers | decision_making.js:34-40 | after adding, every expansion entry matches some entry case-insensitively |
| DecisionMaking.AddExpansionAppendsOnlyNew | decision_making.js:37-38 | each appended entry comes from the expansion and matches no earlier entry case-insensitively; its own casing is kept |
| DecisionMaking.HasCategoryInPrefix | decision_making.js:37 | a category matched by a list is still matched once entries are appended to the list |
| DecisionMaking.ExpansionNeedsKeyAndBase | decision_making.js:26 | without an API key or with no base categories the expander is never consulted: the result is the base list, or the defaults when it is empty |
| DecisionMaking.ExpansionFailureKeepsBase | decision_making.js:31-47 | an expander that throws or returns nothing leaves the base list unchanged |
| DecisionMaking.EffectiveExtendsBase | decision_making.js:20-47 | the effective list starts with the base list; it grows only after a successful expansion, and then only by new entries; every expansion entry ends up matched |
| DecisionMaking.EmptyBaseFallsBackToDefaults | decision_making.js:52-55 | an empty base list is replaced by the default categories |
| DecisionMaking.BaseCategoriesNotDeduplicated | decision_making.js:20 | base entries that differ only in case are all kept: ["Art", "art", "SCIENCE"] stays three entries long |
| DecisionMaking.Relevant | decision_making.js:65-69 | a site is kept iff it is in the catalog, has a non-empty category and that category equals some effective category case-insensitively |
| DecisionMaking.CountsOfConcat | decision_making.js:94 | the counts of history and non-history sites add up over a concatenation of pools |
| DecisionMaking.FreshCountPositive | decision_making.js:94 | a pool has a site outside history iff its count of such sites is positive |
| DecisionMaking.RemoveStale | decision_making.js:101 | splicing out a site that is in history lowers the history count by one and keeps every site outside history |
| DecisionMaking.ChooseWebsite | decision_making.js:17-115 | a missing or empty database gives `error`; no relevant site gives `no_sites`; otherwise the decision is a relevant site's URL after 1..min(5, relevant) draws; `success` means outside history and `success_history` means in history; `success` is guaranteed when a fresh site exists and fewer than five relevant sites are in history; the `Selection failed` branch is unreachable |
| MemoryStore.AddNewQuestion | memory.js:33-36 | a new question becomes the last entry and the history has 1 to 5 entries, the newest of the old ones followed by the question |
| MemoryStore.AddQuestionDropsOnlyOldest | memory.js:34-35 | after any add the history has at most 5 entries and is either unchanged or a suffix of the old history followed by the question |
| MemoryStore.AddKnownQuestion | memory.js:30-33 | an empty question or one already present leaves the history unchanged, with nothing moved to the end |
| MemoryStore.Memory.constructor | memory.js:8-13 | the storage areas start as given |
| MemoryStore.Memory.GetApiKey | memory.js:15-20 | the stored key, or null when it is absent, empty or the sync area fails |
| MemoryStore.Memory.GetPuzzleQuestionHistory | memory.js:23-28 | the stored history (at most 5 entries), or [] when absent or the session area fails |
| MemoryStore.Memory.GetScore | memory.js:47-56 | the stored score, or 0 when absent or the session area fails |
| MemoryStore.Memory.AddPuzzleQuestionToHistory | memory.js:29-40 | the stored history becomes `AddQuestion(old history, question)`; no other key changes; an empty or known question, or an unavailable session area, stores nothing |
| MemoryStore.Memory.SetScore | memory.js:62-69 | the score key is set to the value and nothing else changes; a failing area stores nothing |
| MemoryStore.Memory.IncrementScore | memory.js:75-80 | returns the old score + 1, which a following read returns; the history is untouched |
| MemoryStore.Memory.RemoveSessionKeys | background.js:14 | `chrome.storage.session.remove(keys)` deletes exactly those keys from the session area |
| LlmService.GuardsPrecedeRequest | llm_service.js:14-15 | a missing key gives "Error: API Key not set."; an absent or empty conversation gives the invalid-history error; neither depends on the reply |
| LlmService.ReplyClassification | llm_service.js:24-28 | with a key and a non-empty conversation the result is the reply text when the reply was neither blocked nor stopped early and has text; every other outcome starts with `Error:`, `Blocked:` or `Response stopped:`; a block reason always gives `Blocked:` |
| LlmService.HistoryStringNone | llm_service.js:40-42 | the history string is "None" unless the argument is a non-empty array |
| LlmService.HistoryStringLines | llm_service.js:42-46 | for a non-empty array of single-line entries (no entry holds a newline) the history string splits into one line per entry, the k-th reading `k+1. entry`, in order |
| LlmService.PromptShowsHistory | llm_service.js:59-74 | the history string, between its RECENT HISTORY and END HISTORY markers, starts right after the request lines of the generation prompt |
| LlmService.PromptDeterminesHistory | llm_service.js:59-74 | for a fixed difficulty and time stamp, two prompts are equal only when their history strings are: the prompt carries the history in full |
| LlmService.MatchFieldStartsWithNonSpace | llm_service.js:85-86 | a non-empty capture of `/label\s*(.*)/i` never starts with white space |
| LlmService.ParseBlockWellFormed | llm_service.js:84-87 | a parsed puzzle has a non-empty, already trimmed question and answer |
| LlmService.ParsedAllLength | llm_service.js:82-89 | there are at most as many parsed puzzles as blocks |
| LlmService.ParsedAllFromBlocks | llm_service.js:82-89 | every parsed puzzle is well formed and is the parse of some block |
| LlmService.ParsedAllComplete | llm_service.js:83-87 | every block that parses contributes its puzzle |
| LlmService.ParsePuzzles | llm_service.js:81-89 | the parsing loop collects exactly `ParsedAll(blocks)`, in block order |
| LlmService.GeneratePuzzle | llm_service.js:38-99 | an empty, `Error:` or `Blocked:` result gives null; otherwise null iff no block parses; a returned puzzle is one of the parsed ones and is well formed |
| LlmService.IncorrectContainsCorrect | llm_service.js:110 | every text containing INCORRECT contains CORRECT |
| LlmService.IncorrectOnlyWhenExact | llm_service.js:110 | the verdict is Incorrect iff the trimmed, upper-cased reply is exactly INCORRECT: the `includes('INCORRECT')` branch is dead |
| LlmService.CorrectWhenContained | llm_service.js:110-111 | the verdict is Correct iff the reply is non-empty, not exactly INCORRECT and contains CORRECT (up to case); it is Error iff the reply is empty or lacks CORRECT |
| LlmService.IncorrectWithTrailingText | llm_service.js:110 | "INCORRECT" followed by non-space text is not exactly INCORRECT after trimming and upper-casing |
| LlmService.PunctuatedIncorrectCountsAsCorrect | llm_service.js:110 | a reply such as "INCORRECT." is classified as Correct |
| LlmService.SentinelNeverIncorrect | llm_service.js:109-111 | an `Error:`, `Blocked:` or `Response stopped:` result never reads as Incorrect |
| LlmService.FailedRequestCanReadCorrect | llm_service.js:105-111 | a failed request whose message contains "correct" in any case (and does not end in white space) is judged Correct: the `Error: <message>` sentinel reads as CORRECT |
| LlmService.IncorrectKeyReadsCorrect | llm_service.js:105-111 | the failed request `incorrect key` is judged Correct |
| LlmService.EvaluateAnswerReadsReply | llm_service.js:105-112 | a reply that was neither blocked nor stopped and has text is classified by its text; the verdict is Incorrect only when the reply's text is INCORRECT up to case and surrounding white space |
| PuzzlePerception.NewPuzzleRecognised | puzzle_perception.js:25-30 | `getNewQuestion` becomes a new-puzzle request iff difficulty and puzzle type are both non-empty, and it carries exactly those two values |
| PuzzlePerception.EvaluationRecognised | puzzle_perception.js:31-36 | `evaluateAnswer` becomes an evaluation request iff question data and a defined answer are present; an empty answer is accepted |
| PuzzlePerception.OtherTypesIgnored | puzzle_perception.js:37-40 | any other message type gives null |
| PuzzlePerception.InterpretRequestMessage | puzzle_perception.js:25-36 | the message the popup builds for a request is interpreted back as that request |
| PuzzleDecisionMaking.DecisionKeepsRequest | puzzle_decision_making.js:19-34 | a new-puzzle request becomes a generation plan carrying the asked history unchanged; an evaluation request becomes an evaluation plan; the plan gives back the request |
| PuzzleDecisionMaking.NoRequestNoPlan | puzzle_decision_making.js:16 | a null request gives a null plan |
| PuzzleAction.ExecuteGuards | puzzle_action.js:17-18 | a missing plan gives the invalid-plan error, checked first; a missing key gives "API Key not set in options."; neither consults the LLM |
| PuzzleAction.ExecuteGeneration | puzzle_action.js:22-31 | success iff the generator returns a puzzle, carrying that puzzle; null gives the generation error; the generator receives the puzzle type as its history argument, so the plan's asked history plays no part |
| PuzzleAction.ShippedGeneratorSeesNoHistory | puzzle_action.js:24-29 | with the LLM service's generator the prompt's history section always reads "None" |
| PuzzleAction.ExecuteEvaluation | puzzle_action.js:33-41 | success iff the evaluator returns Correct or Incorrect, carrying that verdict and the stored answer; an `Error` verdict becomes an error whose message is "Error" |
| PuzzleAction.ExecuteCatches | puzzle_action.js:46 | a thrown error becomes an error record whose message starts with "Execution error: " |
| Perception.WanderOnlyForWanderRequest | perception.js:49-59 | a result is returned iff the message type is `wanderRequest` |
| Perception.IntentSource | perception.js:19-42 | the intent is the trimmed LLM text iff a key is present, the call returns and the text passes the sentinel test; otherwise it is the default sentence |
| Perception.NoKeyNoLlm | perception.js:25 | without an API key the interpreter plays no part |
| Perception.SentinelIgnored | perception.js:32-33 | a text starting with `Blocked:`, `Error:` or `API Error:` leaves the default intent |
| Perception.ThrowingInterpreterKeepsDefault | perception.js:36-42 | an interpreter that always throws leaves the default intent for a wander request |
| Background.ResponsePort.constructor | background.js:40 | a new response channel has sent nothing |
| Background.ResponsePort.Send | background.js:101 | sending appends exactly that response |
| Background.HandleRequest | background.js:40-109 | exactly one response is sent; a null message gets the orchestration error with score 0; an unrecognised request gets "Unknown request received." with no score and no storage change; a generated non-empty question is added to the history (nothing is stored when the session area is unavailable) and the response carries the old score; a Correct evaluation increments the score once and the response carries the new score; otherwise storage is unchanged and errors carry the old score |
| Background.ResetSession | background.js:11-21 | after install, update or startup the history reads as [] and the score as 0; the sync area and the availability of both areas are untouched |
| ContentScript.RunLength | content_script.js:114 | the longest run of `[a-zA-Z0-9_.]` characters at the start of the text |
| ContentScript.Tokens | content_script.js:114 | every token matches `[a-zA-Z_][a-zA-Z0-9_.]*` |
| ContentScript.NoWordStartNoTokens | content_script.js:114 | a text with no letter or underscore has no tokens (`match` gives null, read as []) |
| ContentScript.DigitFilterInert | content_script.js:118 | no lowercased token is all digits, so the `^\d+$` filter never removes one |
| ContentScript.LowerAll | content_script.js:117 | each word is lowercased, in order |
| ContentScript.KeptWordsSpec | content_script.js:118 | a word is kept iff it is longer than 3 characters and not a common word |
| ContentScript.KeptWordsAppend | content_script.js:118 | filtering distributes over concatenation, so order is kept |
| ContentScript.KeptWordsSubsequence | content_script.js:118 | the kept words are a subsequence of the input words, in their order |
| ContentScript.Take | content_script.js:119 | `slice(0, n)`: the first min(n, length) entries |
| ContentScript.ExtractKeywordsSpec | content_script.js:110-120 | at most 15 keywords, each the lowercase of an input token, longer than 3 and not common; they form a subsequence of the lowercased tokens; with fewer than 15, every token that passes the filter is among them; empty text gives [] |
| ContentScript.ErrorPatternsEndInError | content_script.js:125 | every error pattern ends in `Error:` |
| ContentScript.PatternBranchSubsumed | content_script.js:122-130 | `isLikelyError(t)` holds iff lowercase(t) contains one of the keywords: the pattern branch never changes the result |
| ContentScript.ClassLanguageFirst | content_script.js:79-86 | the language is taken from the first class with a `language-` or `lang-` prefix, or none when no class has one |
| ContentScript.DetectLanguagePrecedence | content_script.js:77-108 | the code element's classes win over the parent `pre`'s, which win over the content heuristics |
| ContentScript.ContentLanguageValues | content_script.js:101-107 | the content heuristics give javascript, python, html, css or null, tried in that order |
| ContentScript.DedupSpec | content_script.js:72 | `[...new Set(keywords)]` has no duplicates and the same members |
| ContentScript.DedupPrefix | content_script.js:72 | deduplication keeps first occurrences: the result for a prefix is a prefix of the result |
| ContentScript.DedupDistinct | content_script.js:72 | a list without duplicates is unchanged |
| ContentScript.CodeBlocks | content_script.js:43-46 | one code block per code element |
| ContentScript.CodeBlocksSpec | content_script.js:44-46 | the k-th block holds the k-th element's detected language and text |
| ContentScript.FirstLanguage | content_script.js:49-51 | the page language is null or a non-empty language |
| ContentScript.FirstLanguageSpec | content_script.js:49-51 | the page language is the first non-null block language, and null iff there is none |
| ContentScript.FirstLanguageAppend | content_script.js:49-51 | a later block sets the page language only when none has been found |
| ContentScript.ScanCodeElements | content_script.js:42-57 | the loop collects exactly the code blocks, the first language and the keywords of all elements |
| ContentScript.ScanSelection | content_script.js:33-39 | a non-empty selection contributes its keywords, and itself as an error when it looks like one |
| ContentScript.ScanErrorBox | content_script.js:61-68 | the error-box text is added, with its keywords, only when non-empty and not already present |
| ContentScript.AnalyzePage | content_script.js:21-75 | the page context holds the trimmed selection, the code blocks, the first language, the errors, and the deduplicated keywords of selection, code and error box, in that order |
| Popup.EscapeHtmlIsPerCharacter | popup.js:190 | the chain of five global replacements equals one pass that replaces each character by its entity |
| Popup.EscapeHtmlOfText | popup.js:190 | `escapeHtml` of a non-empty text is the per-character escape |
| Popup.EscapeHtmlSafe | popup.js:190 | a falsy input gives ""; the output holds no `<`, `>`, `"` or `'`, and every `&` begins one of the five entities |
| Popup.EscapeHtmlKeepsPlainText | popup.js:190 | text without any of the five special characters is unchanged |
| Popup.UnescapeEscape | popup.js:190 | decoding the five entities recovers the escaped text exactly |
| Popup.EscapeHtmlRoundTrip | popup.js:190 | decoding the output of `escapeHtml` gives back any non-empty input |

## Left out

- The HTTP part of `callGeminiAPI` is left out: `fetch`, the `AbortController` timeout and JSON decoding (llm_service.js:17-23, 28). The decoded reply is an input `Reply`, and a timeout or failed request is one of its cases.
- Where `Math.random` is called (decision_making.js:90, llm_service.js:92) the model takes the number as a parameter. It proves only that every draw is in range, not how likely each draw is.
- `Date.now()` (llm_service.js:58) is a `timestamp` parameter.
- `chrome.storage` is asynchronous. Two requests that overlap can interleave, and the later write wins. The model runs each request alone against a single-threaded store.
- The `chrome.runtime` message listeners and the `return true` idiom (background.js:25-31, content_script.js:4-19) are platform plumbing and are left out. That includes the unfinished `highlightAndGetContext` branch.
- The DOM is left out: `querySelectorAll`, `getSelection`, `closest` and `classList`. The page inputs are a selection string, code elements (class lists, the parent `pre`'s classes, text) and an optional error-box text.
- Case mapping covers ASCII only (`toLowerCase`, `toUpperCase`). Full Unicode case mapping, where upper-casing can change a string's length, is not modelled. The regular expressions are hand-coded for the few patterns used.
- Console logging is not modelled. That includes the simulated intent strings of puzzle_perception.js:15-21.
- `LLMService.expandCategories`, `LLMService.interpretIntent` and `Memory.DEFAULT_CATEGORIES` are not defined in any file of the repository. The first two are collaborator functions that may throw. The default list is a parameter `defaults`. As shipped, the two calls throw, which `ExpansionFailureKeepsBase` and `ThrowingInterpreterKeepsDefault` cover. `chooseWebsite` with an empty base list would then use `undefined`, which the model does not represent.
- A message field that is `null`, `undefined` or empty is one falsy value in the model. `interpretRequest` accepts an answer that is `null` but rejects one that is `undefined`; the model cannot tell these apart, so any present answer counts as defined.
- Message fields are strings in the model; non-string values are not represented. In the source a truthy non-string difficulty or puzzle type (such as `3`) passes the check of puzzle_perception.js:25, and a defined answer that is not a string, such as a number, makes `userAnswer?.substring` throw at puzzle_perception.js:19, so the request ends in the catch of background.js.
- PuzzleDecisionMaking.DecideNextAction: the closed request type has no third case, so the unknown-request `null` (puzzle_decision_making.js:36-38) cannot occur.
- The `askedHistory = []` defaults (puzzle_decision_making.js:12, llm_service.js:38) are not modelled, because every caller passes the argument.
- PuzzleAction.Execute: the closed plan type has no unknown action, so the `Unknown action` error (puzzle_action.js:44) cannot occur.
- PuzzleAction.Execute: the evaluator always returns one of three verdicts, so the `"AI evaluation failed."` fallback (puzzle_action.js:41) cannot occur.
- Background.HandleRequest: a recognised request always yields a plan, so the `Could not decide action` response (background.js:63) cannot occur. Of the errors that reach the catch, the model represents a missing message: reading `type` of it throws, and the model sends the V8 wording of that `TypeError` for `null`. An `undefined` message reaches the same catch with `undefined` in the wording; the model does not tell the two apart. A non-string answer also reaches the catch (see above) and is not represented.
- LlmService.HistoryString: `map` and `join` over an array of strings cannot throw, so the `"Error formatting history"` fallback (llm_service.js:47-50) is not modelled.
- LlmService.GeneratePuzzle: states that the puzzle returned is one of the parsed puzzles. It does not state which one the roll selects.
- handleRequest calls the generator once. Nothing in the code retries generation when a question is already in the history, so the model has no retry loop either.
- The visit history of the Web Wanderer and the catalog loading live outside the modelled files. `ChooseWebsite` takes both the history and the catalog as inputs.
- Everything in popup.js except `escapeHtml`, plus options.js and action.js, is user-interface code or a disabled stub.
