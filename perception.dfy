/**
 * The perception layer of the Web Wanderer extension
 * (`Perception.interpretRequest` in perception.js): a `wanderRequest`
 * message becomes a WANDER action whose intent is a default sentence, or the
 * trimmed interpretation of an LLM when one is available and usable.
 *
 * The stored API key is an input (the value `Memory.getApiKey` returned), and
 * the LLM interpretation `LLMService.interpretIntent(apiKey, type)` is a
 * collaborator that may throw.
 */
module Perception {
  import opened Runtime
  import opened Strings

  /** `{ action: "WANDER", intent }` */
  datatype Perceived = Wander(intent: string)

  const WanderRequest := "wanderRequest"
  const DefaultIntent := "User triggered 'Wander' action."

  /** The test an LLM interpretation has to pass to replace the default intent. */
  predicate UsableInterpretation(text: string)
  {
    text != "" && !StartsWith(text, "Blocked:") && !StartsWith(text, "Error:") && !StartsWith(text, "API Error:")
  }

  /** The intent: the default, unless the LLM was consulted and returned a usable text, which is then trimmed. */
  function WanderIntent(kind: string, apiKey: Option<string>, interpret: (string, string) -> Attempt<string>): string
  {
    if Present(apiKey) && kind == WanderRequest then
      match interpret(apiKey.value, kind)
      case Returned(text) => if UsableInterpretation(text) then Trim(text) else DefaultIntent
      case Threw(_) => DefaultIntent
    else DefaultIntent
  }

  /** `interpretRequest(message, preferences)` for a message of type `kind`. */
  function InterpretRequest(kind: string, apiKey: Option<string>, interpret: (string, string) -> Attempt<string>): Option<Perceived>
  {
    if kind == WanderRequest then Some(Wander(WanderIntent(kind, apiKey, interpret))) else None
  }

  /** A WANDER action is returned exactly for `wanderRequest` messages. */
  lemma WanderOnlyForWanderRequest(kind: string, apiKey: Option<string>, interpret: (string, string) -> Attempt<string>)
    ensures InterpretRequest(kind, apiKey, interpret).Some? <==> kind == WanderRequest
  {
  }

  /**
   * The intent is the trimmed LLM text exactly when a key is present, the
   * LLM returned and its text passed the sentinel test; in every other case,
   * including a thrown error, it is the default sentence.
   */
  lemma IntentSource(apiKey: Option<string>, interpret: (string, string) -> Attempt<string>)
    ensures var intent := WanderIntent(WanderRequest, apiKey, interpret);
      if Present(apiKey) && interpret(apiKey.value, WanderRequest).Returned?
         && UsableInterpretation(interpret(apiKey.value, WanderRequest).value)
      then intent == Trim(interpret(apiKey.value, WanderRequest).value)
      else intent == DefaultIntent
  {
  }

  /** Without a key the LLM plays no part. */
  lemma NoKeyNoLlm(kind: string, apiKey: Option<string>,
                   interpret: (string, string) -> Attempt<string>, other: (string, string) -> Attempt<string>)
    requires !Present(apiKey)
    ensures InterpretRequest(kind, apiKey, interpret) == InterpretRequest(kind, apiKey, other)
  {
  }

  /** An interpretation that starts with a sentinel never becomes the intent. */
  lemma SentinelIgnored(apiKey: Option<string>, interpret: (string, string) -> Attempt<string>, tag: string, rest: string)
    requires Present(apiKey)
    requires tag == "Blocked:" || tag == "Error:" || tag == "API Error:"
    requires interpret(apiKey.value, WanderRequest) == Returned(tag + rest)
    ensures WanderIntent(WanderRequest, apiKey, interpret) == DefaultIntent
  {
    StartsWithConcat(tag, rest);
  }

  /**
   * `LLMService.interpretIntent` is not defined in the service the extension
   * ships, so the call throws: the intent is then always the default.
   */
  lemma ThrowingInterpreterKeepsDefault(kind: string, apiKey: Option<string>, interpret: (string, string) -> Attempt<string>)
    requires forall key, requestType :: interpret(key, requestType).Threw?
    ensures InterpretRequest(kind, apiKey, interpret) == if kind == WanderRequest then Some(Wander(DefaultIntent)) else None
  {
  }
}
