/**
 * The Bedrock client protocol (`BedrockClient`): per-provider request bodies,
 * per-provider response parsing, the classification of failed calls into the
 * tool's errors, and the bounded retry loop with exponential backoff.
 *
 * The network is a parameter: `call(request, attempt)` is what the runtime
 * endpoint does with the `attempt`-th request, and `decode` is `json.loads`.
 * Sleeping is replaced by the list of delays the loop would sleep.
 */
module Client {
  import opened Wrappers
  import opened Strings
  import opened Json
  import opened Exceptions
  import opened OrderedMap
  import Models

  datatype BedrockResponse = BedrockResponse(
    content: string,
    modelId: string,
    inputTokens: int,
    outputTokens: int,
    stopReason: string,
    costEstimate: real)

  /** The settings `BedrockClient.__init__` reads from the `bedrock` section. */
  datatype Settings = Settings(
    region: string,
    modelId: string,
    maxTokens: int,
    temperature: real,
    retryAttempts: int,
    retryDelay: real)

  /** A number read from the configuration, integer or float. */
  function NumberFieldOr(v: Value, k: string, d: real): real {
    match Field(v, k)
    case Some(Int(i)) => i as real
    case Some(Float(r)) => r
    case _ => d
  }

  const DefaultModel := "anthropic.claude-3-5-sonnet-20241022-v2:0"

  /** `config.get(key, default)` for each setting; a value of the wrong type reads as missing. */
  function SettingsOf(config: Value): (s: Settings)
    ensures config == EmptyObj ==> s == Settings("us-east-1", DefaultModel, 4000, 0.1, 3, 1.0)
  {
    Settings(
      StrFieldOr(config, "region", "us-east-1"),
      StrFieldOr(config, "model", DefaultModel),
      IntFieldOr(config, "max_tokens", 4000),
      NumberFieldOr(config, "temperature", 0.1),
      IntFieldOr(config, "retry_attempts", 3),
      NumberFieldOr(config, "retry_delay", 1.0))
  }

  // ---------------------------------------------------------------------
  // Requests
  // ---------------------------------------------------------------------

  function UserMessage(content: string): Value {
    Obj([("role", Str("user")), ("content", Str(content))])
  }

  /** `_build_anthropic_request`: the `system` key is added only for a non-empty system prompt. */
  function AnthropicRequest(s: Settings, prompt: string, system: Option<string>): Value {
    Obj([("anthropic_version", Str("bedrock-2023-05-31")),
         ("max_tokens", Int(s.maxTokens)),
         ("temperature", Float(s.temperature)),
         ("messages", Arr([UserMessage(prompt)]))]
        + (if Given(system) then [("system", Str(system.value))] else []))
  }

  /** The Anthropic body carries the prompt as its one user message, and the configured token limit. */
  lemma AnthropicRequestMessages(s: Settings, prompt: string, system: Option<string>)
    ensures Field(AnthropicRequest(s, prompt, system), "messages") == Some(Arr([UserMessage(prompt)]))
    ensures Field(AnthropicRequest(s, prompt, system), "max_tokens") == Some(Int(s.maxTokens))
  {
    var f := AnthropicRequest(s, prompt, system).fields;
    assert Get(f, "messages") == Some(Arr([UserMessage(prompt)])) by {
      GetFirst(f, "messages", 3);
    }
    assert Get(f, "max_tokens") == Some(Int(s.maxTokens)) by {
      GetFirst(f, "max_tokens", 1);
    }
  }

  /** The Anthropic body has a `system` entry exactly when a non-empty system prompt is given, holding it. */
  lemma AnthropicRequestSystem(s: Settings, prompt: string, system: Option<string>)
    ensures Field(AnthropicRequest(s, prompt, system), "system").Some? <==> Given(system)
    ensures Given(system) ==> Field(AnthropicRequest(s, prompt, system), "system") == Some(Str(system.value))
  {
    var f := AnthropicRequest(s, prompt, system).fields;
    if Given(system) {
      GetFirst(f, "system", 4);
    } else {
      assert forall j :: 0 <= j < |f| ==> Keys(f)[j] != "system";
    }
  }

  /** The Llama prompt: the system prompt wrapped in `<<SYS>>` tags inside an `[INST]` block. */
  function LlamaPrompt(prompt: string, system: Option<string>): (full: string)
    ensures !Given(system) ==> full == prompt
    ensures Given(system) ==>
              && StartsWith(full, "<s>[INST] <<SYS>>\n" + system.value + "\n<</SYS>>\n\n")
              && |full| == |"<s>[INST] <<SYS>>\n" + system.value + "\n<</SYS>>\n\n"| + |prompt| + |" [/INST]"|
              && full[|full| - |" [/INST]"| - |prompt|..|full| - |" [/INST]"|] == prompt
  {
    if Given(system) then
      var head := "<s>[INST] <<SYS>>\n" + system.value + "\n<</SYS>>\n\n";
      var full := head + prompt + " [/INST]";
      assert full[|head|..|head| + |prompt|] == prompt;
      full
    else prompt
  }

  /** The Cohere and AI21 prompt: the system prompt, a blank line, then the prompt. */
  function EmbeddedPrompt(prompt: string, system: Option<string>): (full: string)
    ensures !Given(system) ==> full == prompt
    ensures Given(system) ==>
              && StartsWith(full, system.value + "\n\n")
              && |full| == |system.value| + 2 + |prompt|
              && full[|full| - |prompt|..] == prompt
  {
    if Given(system) then
      var full := system.value + "\n\n" + prompt;
      assert full[|full| - |prompt|..] == prompt;
      full
    else prompt
  }

  /** With a system prompt of known length the user prompt is recovered from the embedded one. */
  lemma {:induction false} EmbeddedPromptInjective(p1: string, p2: string, system: Option<string>)
    requires EmbeddedPrompt(p1, system) == EmbeddedPrompt(p2, system)
    ensures p1 == p2
  {
    var full := EmbeddedPrompt(p1, system);
    if Given(system) {
      assert p1 == full[|full| - |p1|..] && p2 == full[|full| - |p2|..];
    }
  }

  /** `_build_llama_request` */
  function LlamaRequest(s: Settings, prompt: string, system: Option<string>): Value {
    Obj([("prompt", Str(LlamaPrompt(prompt, system))),
         ("max_gen_len", Int(s.maxTokens)),
         ("temperature", Float(s.temperature)),
         ("top_p", Float(0.9))])
  }

  /** `_build_cohere_request` */
  function CohereRequest(s: Settings, prompt: string, system: Option<string>): Value {
    Obj([("message", Str(EmbeddedPrompt(prompt, system))),
         ("max_tokens", Int(s.maxTokens)),
         ("temperature", Float(s.temperature)),
         ("p", Float(0.9))])
  }

  /** `_build_ai21_request` */
  function Ai21Request(s: Settings, prompt: string, system: Option<string>): Value {
    Obj([("messages", Arr([UserMessage(EmbeddedPrompt(prompt, system))])),
         ("max_tokens", Int(s.maxTokens)),
         ("temperature", Float(s.temperature)),
         ("top_p", Float(0.9))])
  }

  /** `BedrockError(msg)` without a service error. */
  function Bedrock(msg: string): Error {
    BedrockError(msg, None)
  }

  /** `_build_request_body`: the body for the model's provider; an unknown model or provider raises. */
  function RequestBody(models: Models.Models, s: Settings, prompt: string, system: Option<string>): (r: Result<Value, Error>)
    ensures r.Err? <==> !Models.IsModelSupported(models, s.modelId)
                        || Models.GetModelInfo(models, s.modelId).value.provider !in
                             {Models.Anthropic, Models.Meta, Models.Cohere, Models.Ai21}
  {
    match Models.GetModelInfo(models, s.modelId)
    case Err(e) => Err(e)
    case Ok(info) =>
      if info.provider == Models.Anthropic then Ok(AnthropicRequest(s, prompt, system))
      else if info.provider == Models.Meta then Ok(LlamaRequest(s, prompt, system))
      else if info.provider == Models.Cohere then Ok(CohereRequest(s, prompt, system))
      else if info.provider == Models.Ai21 then Ok(Ai21Request(s, prompt, system))
      else Err(Bedrock("Unsupported model provider: " + info.provider))
  }

  // ---------------------------------------------------------------------
  // Responses
  // ---------------------------------------------------------------------

  /** `_estimate_cost`: tokens over a thousand times the model's prices. */
  function EstimateCost(info: Models.ModelInfo, inputTokens: real, outputTokens: real): real {
    (inputTokens / 1000.0) * info.inputCostPer1k + (outputTokens / 1000.0) * info.outputCostPer1k
  }

  /** For whole token counts the client's estimate is the catalog's `get_cost_estimate`. */
  lemma EstimateCostAgrees(models: Models.Models, modelId: string, info: Models.ModelInfo, inputTokens: int, outputTokens: int)
    requires Get(models, modelId) == Some(info)
    ensures EstimateCost(info, inputTokens as real, outputTokens as real) == Models.CostEstimate(models, modelId, inputTokens, outputTokens)
  {
  }

  /** `len(content.split())` */
  function WordCount(content: string): nat {
    |SplitWhitespace(content)|
  }

  /** `len(content.split()) * 1.3`, the word-based token estimate. */
  function WordEstimate(content: string): real {
    1.3 * (WordCount(content) as real)
  }

  /** `seq[0].get(k, "")` when `seq` is a non-empty list of dicts. */
  function FirstEntry(v: Option<Value>): Value {
    match v
    case Some(Arr(items)) => if items != [] then items[0] else EmptyObj
    case _ => EmptyObj
  }

  /** `_parse_anthropic_response` */
  function ParseAnthropic(modelId: string, info: Models.ModelInfo, body: Value): BedrockResponse {
    var content := StrFieldOr(FirstEntry(Field(body, "content")), "text", "");
    var usage := FieldOr(body, "usage", EmptyObj);
    var inputTokens := IntFieldOr(usage, "input_tokens", 0);
    var outputTokens := IntFieldOr(usage, "output_tokens", 0);
    BedrockResponse(content, modelId, inputTokens, outputTokens, StrFieldOr(body, "stop_reason", "unknown"),
                    EstimateCost(info, inputTokens as real, outputTokens as real))
  }

  /** `_parse_llama_response` */
  function ParseLlama(modelId: string, info: Models.ModelInfo, body: Value): BedrockResponse {
    var content := StrFieldOr(body, "generation", "");
    var estimate := WordEstimate(content);
    BedrockResponse(content, modelId, 0, estimate.Floor, StrFieldOr(body, "stop_reason", "unknown"),
                    EstimateCost(info, 0.0, estimate))
  }

  /** `_parse_cohere_response` */
  function ParseCohere(modelId: string, info: Models.ModelInfo, body: Value): BedrockResponse {
    var content := StrFieldOr(body, "text", "");
    var estimate := WordEstimate(content);
    BedrockResponse(content, modelId, 0, estimate.Floor, "complete",
                    EstimateCost(info, 0.0, estimate))
  }

  /** `_parse_ai21_response` */
  function ParseAi21(modelId: string, info: Models.ModelInfo, body: Value): BedrockResponse {
    var message := FieldOr(FirstEntry(Field(body, "choices")), "message", EmptyObj);
    var content := StrFieldOr(message, "content", "");
    var usage := FieldOr(body, "usage", EmptyObj);
    var inputTokens := IntFieldOr(usage, "prompt_tokens", 0);
    var outputTokens := IntFieldOr(usage, "completion_tokens", 0);
    BedrockResponse(content, modelId, inputTokens, outputTokens, "complete",
                    EstimateCost(info, inputTokens as real, outputTokens as real))
  }

  /** The body Anthropic sends: one text block, usage and a stop reason. */
  function AnthropicBody(text: string, inputTokens: int, outputTokens: int, stopReason: string): Value {
    Obj([("content", Arr([Obj([("type", Str("text")), ("text", Str(text))])])),
         ("usage", Obj([("input_tokens", Int(inputTokens)), ("output_tokens", Int(outputTokens))])),
         ("stop_reason", Str(stopReason))])
  }

  /** The body AI21 sends: one choice and usage. */
  function Ai21Body(text: string, inputTokens: int, outputTokens: int): Value {
    Obj([("choices", Arr([Obj([("message", Obj([("role", Str("assistant")), ("content", Str(text))]))])])),
         ("usage", Obj([("prompt_tokens", Int(inputTokens)), ("completion_tokens", Int(outputTokens))]))])
  }

  /** An Anthropic body parses back to its text, token counts and stop reason, priced by the catalog. */
  lemma AnthropicRoundTrip(models: Models.Models, modelId: string, info: Models.ModelInfo,
                           text: string, inputTokens: int, outputTokens: int, stopReason: string)
    requires Get(models, modelId) == Some(info)
    ensures ParseAnthropic(modelId, info, AnthropicBody(text, inputTokens, outputTokens, stopReason))
            == BedrockResponse(text, modelId, inputTokens, outputTokens, stopReason,
                               Models.CostEstimate(models, modelId, inputTokens, outputTokens))
  {
    EstimateCostAgrees(models, modelId, info, inputTokens, outputTokens);
    var block := [("type", Str("text")), ("text", Str(text))];
    var usage := [("input_tokens", Int(inputTokens)), ("output_tokens", Int(outputTokens))];
    GetPair("type", Str("text"), "text", Str(text));
    GetPair("input_tokens", Int(inputTokens), "output_tokens", Int(outputTokens));
    GetTriple("content", Arr([Obj(block)]), "usage", Obj(usage), "stop_reason", Str(stopReason));
  }

  /** An AI21 body parses back to its text and token counts; the stop reason is always `complete`. */
  lemma Ai21RoundTrip(models: Models.Models, modelId: string, info: Models.ModelInfo,
                      text: string, inputTokens: int, outputTokens: int)
    requires Get(models, modelId) == Some(info)
    ensures ParseAi21(modelId, info, Ai21Body(text, inputTokens, outputTokens))
            == BedrockResponse(text, modelId, inputTokens, outputTokens, "complete",
                               Models.CostEstimate(models, modelId, inputTokens, outputTokens))
  {
    EstimateCostAgrees(models, modelId, info, inputTokens, outputTokens);
    var message := [("role", Str("assistant")), ("content", Str(text))];
    var usage := [("prompt_tokens", Int(inputTokens)), ("completion_tokens", Int(outputTokens))];
    GetPair("role", Str("assistant"), "content", Str(text));
    GetFirst([("message", Obj(message))], "message", 0);
    GetPair("prompt_tokens", Int(inputTokens), "completion_tokens", Int(outputTokens));
    GetPair("choices", Arr([Obj([("message", Obj(message))])]), "usage", Obj(usage));
  }

  /** Missing fields read as their defaults: empty content, no tokens, `unknown` stop reason for Anthropic. */
  lemma EmptyBodiesDefault(modelId: string, info: Models.ModelInfo)
    ensures ParseAnthropic(modelId, info, EmptyObj) == BedrockResponse("", modelId, 0, 0, "unknown", 0.0)
    ensures ParseAi21(modelId, info, EmptyObj) == BedrockResponse("", modelId, 0, 0, "complete", 0.0)
    ensures ParseLlama(modelId, info, EmptyObj) == BedrockResponse("", modelId, 0, 0, "unknown", 0.0)
    ensures ParseCohere(modelId, info, EmptyObj) == BedrockResponse("", modelId, 0, 0, "complete", 0.0)
  {
  }

  /**
   * Llama reports no input tokens; the output count is the whole part of 1.3
   * per word, that is 13 words over 10 rounded down, while the cost is priced
   * on the unrounded estimate.
   */
  lemma LlamaWordEstimate(modelId: string, info: Models.ModelInfo, body: Value)
    ensures var r := ParseLlama(modelId, info, body);
            && r.inputTokens == 0
            && r.outputTokens == 13 * WordCount(r.content) / 10
            && r.costEstimate == EstimateCost(info, 0.0, 1.3 * (WordCount(r.content) as real))
  {
    TokenEstimate(WordCount(StrFieldOr(body, "generation", "")));
  }

  /** Cohere estimates tokens as Llama does, and its stop reason is always `complete`. */
  lemma CohereWordEstimate(modelId: string, info: Models.ModelInfo, body: Value)
    ensures var r := ParseCohere(modelId, info, body);
            && r.inputTokens == 0 && r.stopReason == "complete"
            && r.outputTokens == 13 * WordCount(r.content) / 10
            && r.costEstimate == EstimateCost(info, 0.0, 1.3 * (WordCount(r.content) as real))
  {
    TokenEstimate(WordCount(StrFieldOr(body, "text", "")));
  }

  /** `int(words * 1.3)` is 13 words over 10, rounded down. */
  lemma TokenEstimate(words: nat)
    ensures (1.3 * (words as real)).Floor == 13 * words / 10
  {
    var n := 13 * words;
    var q := n / 10;
    var r := n % 10;
    assert n == 10 * q + r;
    assert 1.3 * (words as real) == (q as real) + (r as real) / 10.0;
  }

  /** `_parse_response`: the parser of the model's provider. */
  function ParseResponse(modelId: string, info: Models.ModelInfo, body: Value): Result<BedrockResponse, Error> {
    if info.provider == Models.Anthropic then Ok(ParseAnthropic(modelId, info, body))
    else if info.provider == Models.Meta then Ok(ParseLlama(modelId, info, body))
    else if info.provider == Models.Cohere then Ok(ParseCohere(modelId, info, body))
    else if info.provider == Models.Ai21 then Ok(ParseAi21(modelId, info, body))
    else Err(Bedrock("Unsupported model provider: " + info.provider))
  }

  // ---------------------------------------------------------------------
  // One attempt
  // ---------------------------------------------------------------------

  /** What the runtime endpoint does with one request. */
  datatype CallOutcome =
    | Responded(body: string)
    /** A `ClientError`, with its error code and message (`Unknown` and `str(e)` when absent). */
    | ClientFailure(code: string, message: string)
    /** A `BotoCoreError` (connection, timeout), with its text. */
    | TransportFailure(text: string)
    /** Any other exception, with its text. */
    | OtherFailure(text: string)

  /** The error a `ClientError` becomes: the code is kept as the service error. */
  function Classify(code: string, message: string): (e: Error)
    ensures e.BedrockError? && e.serviceError == Some(code)
    ensures e.msg == (if code == "ThrottlingException" then "Rate limit exceeded: "
                      else if code == "ValidationException" then "Invalid request: "
                      else if code == "ModelNotReadyException" then "Model not ready: "
                      else if code == "ServiceQuotaExceededException" then "Service quota exceeded: "
                      else "Bedrock API error (" + code + "): ") + message
  {
    if code == "ThrottlingException" then BedrockError("Rate limit exceeded: " + message, Some(code))
    else if code == "ValidationException" then BedrockError("Invalid request: " + message, Some(code))
    else if code == "ModelNotReadyException" then BedrockError("Model not ready: " + message, Some(code))
    else if code == "ServiceQuotaExceededException" then BedrockError("Service quota exceeded: " + message, Some(code))
    else BedrockError("Bedrock API error (" + code + "): " + message, Some(code))
  }

  /** A non-empty error code is shown at the end of the error's text. */
  lemma ClassifyShowsCode(code: string, message: string)
    requires code != ""
    ensures var text := Message(Classify(code, message));
            |text| >= |code| + 3 && text[|text| - |code| - 3..] == " (" + code + ")"
  {
    var e := Classify(code, message);
    assert Suffix(e) == " (" + code + ")";
  }

  /** An exception raised inside the attempt that is not one of the named kinds. */
  function Unexpected(e: Error): Error {
    Bedrock("Unexpected error calling Bedrock: " + Message(e))
  }

  /** `_invoke_model_once` with the endpoint's behaviour for this attempt. */
  function InvokeOnce(models: Models.Models, s: Settings, decode: string -> Result<Value, string>,
                      prompt: string, system: Option<string>,
                      call: (Value, nat) -> CallOutcome, attempt: nat): (r: Result<BedrockResponse, Error>)
    ensures r.Err? ==> r.error.BedrockError? || r.error.NetworkError?
    ensures r.Err? && r.error.NetworkError? <==>
              RequestBody(models, s, prompt, system).Ok? && call(RequestBody(models, s, prompt, system).value, attempt).TransportFailure?
  {
    match RequestBody(models, s, prompt, system)
    case Err(e) => Err(Unexpected(e))
    case Ok(request) =>
      match call(request, attempt)
      case ClientFailure(code, message) => Err(Classify(code, message))
      case TransportFailure(text) => Err(NetworkError("Network error calling Bedrock: " + text, None))
      case OtherFailure(text) => Err(Bedrock("Unexpected error calling Bedrock: " + text))
      case Responded(text) =>
        match decode(text)
        case Err(m) => Err(Bedrock("Failed to parse Bedrock response: " + m))
        case Ok(body) =>
          var info := Models.GetModelInfo(models, s.modelId).value;
          match ParseResponse(s.modelId, info, body)
          case Err(e) => Err(Unexpected(e))
          case Ok(resp) => Ok(resp)
  }

  /** An unknown model id fails every attempt with a wrapped `ValueError`, which is retried. */
  lemma UnknownModelRetried(models: Models.Models, s: Settings, decode: string -> Result<Value, string>,
                            prompt: string, system: Option<string>, call: (Value, nat) -> CallOutcome, attempt: nat)
    requires !Models.IsModelSupported(models, s.modelId)
    ensures InvokeOnce(models, s, decode, prompt, system, call, attempt)
            == Err(Bedrock("Unexpected error calling Bedrock: Unsupported model: " + s.modelId))
  {
    var e := BuiltinError("ValueError", "Unsupported model: " + s.modelId);
    assert Message(e) == "Unsupported model: " + s.modelId;
    assert "Unexpected error calling Bedrock: " + ("Unsupported model: " + s.modelId)
        == "Unexpected error calling Bedrock: Unsupported model: " + s.modelId;
  }

  // ---------------------------------------------------------------------
  // The retry loop
  // ---------------------------------------------------------------------

  function Pow2(k: nat): (p: nat)
    ensures p >= 1
  {
    if k == 0 then 1 else 2 * Pow2(k - 1)
  }

  /** The sleep before retrying after attempt `k`: `retry_delay * 2 ** k`. */
  function Backoff(delay: real, k: nat): real {
    delay * Pow2(k) as real
  }

  /** Each delay is twice the one before. */
  lemma BackoffDoubles(delay: real, k: nat)
    ensures Backoff(delay, k + 1) == 2.0 * Backoff(delay, k)
  {
  }

  /** Whether an attempt's outcome ends the loop before the last attempt. */
  predicate Retried<T>(o: Result<T, Error>) {
    o.Err? && o.error.BedrockError?
  }

  /**
   * `invoke_model` from attempt `attempt` on: the outcome and the delays slept.
   * Only a `BedrockError` is retried; the last attempt's error is re-raised.
   */
  function Retry<T>(once: nat -> Result<T, Error>, retries: nat, delay: real, attempt: nat): (Result<T, Error>, seq<real>)
    requires attempt <= retries
    decreases retries - attempt
  {
    var o := once(attempt);
    if !Retried(o) || attempt == retries then (o, [])
    else
      var rest := Retry(once, retries, delay, attempt + 1);
      (rest.0, [Backoff(delay, attempt)] + rest.1)
  }

  /** The loop with a possibly negative retry count: none at all makes no attempt. */
  function Invoke<T>(once: nat -> Result<T, Error>, retryAttempts: int, delay: real): (Result<T, Error>, seq<real>) {
    if retryAttempts < 0 then (Err(Bedrock("All retry attempts exhausted")), [])
    else Retry(once, retryAttempts, delay, 0)
  }

  /**
   * The loop's outcome is that of attempt `k`, where `k` is the number of
   * delays slept: every earlier attempt failed with a `BedrockError`, and
   * attempt `k` succeeded, failed otherwise, or was the last.
   */
  lemma {:induction false} RetrySpec<T>(once: nat -> Result<T, Error>, retries: nat, delay: real, attempt: nat)
    requires attempt <= retries
    ensures var res := Retry(once, retries, delay, attempt);
            var k := attempt + |res.1|;
            && k <= retries
            && res.0 == once(k)
            && (k < retries ==> !Retried(once(k)))
            && (forall j :: attempt <= j < k ==> Retried(once(j)))
    decreases retries - attempt
  {
    if Retried(once(attempt)) && attempt < retries {
      RetrySpec(once, retries, delay, attempt + 1);
    }
  }

  /** The `j`-th delay slept is `delay * 2^j`: exponential backoff. */
  lemma {:induction false} RetryDelays<T>(once: nat -> Result<T, Error>, retries: nat, delay: real, attempt: nat)
    requires attempt <= retries
    ensures forall j :: 0 <= j < |Retry(once, retries, delay, attempt).1| ==>
              Retry(once, retries, delay, attempt).1[j] == Backoff(delay, attempt + j)
    decreases retries - attempt
  {
    if Retried(once(attempt)) && attempt < retries {
      RetryDelays(once, retries, delay, attempt + 1);
      var rest := Retry(once, retries, delay, attempt + 1).1;
      var delays := Retry(once, retries, delay, attempt).1;
      assert delays[1..] == rest;
      forall j | 0 < j < |delays| ensures delays[j] == Backoff(delay, attempt + j) {
        var i := j - 1;
        assert delays[j] == rest[i] && attempt + 1 + i == attempt + j;
      }
    }
  }

  /** At most `retries + 1` attempts; the first success is returned and a network error is never retried. */
  lemma InvokeBounds<T>(once: nat -> Result<T, Error>, retries: nat, delay: real)
    ensures |Invoke(once, retries, delay).1| <= retries
    ensures once(0).Ok? ==> Invoke(once, retries, delay) == (once(0), [])
    ensures once(0).Err? && once(0).error.NetworkError? ==> Invoke(once, retries, delay) == (once(0), [])
  {
    RetrySpec(once, retries, delay, 0);
  }

  /** The attempt loop of `invoke_model`, recording the backoff it sleeps. */
  method RetryLoop<T>(once: nat -> Result<T, Error>, retryAttempts: int, delay: real)
    returns (r: Result<T, Error>, delays: seq<real>)
    ensures (r, delays) == Invoke(once, retryAttempts, delay)
  {
    delays := [];
    var attempt := 0;
    while attempt < retryAttempts + 1
      invariant 0 <= attempt && (retryAttempts >= 0 ==> attempt <= retryAttempts)
      invariant retryAttempts >= 0 ==>
                  var whole := Retry(once, retryAttempts, delay, 0);
                  var rest := Retry(once, retryAttempts, delay, attempt);
                  whole.0 == rest.0 && whole.1 == delays + rest.1
      invariant retryAttempts < 0 ==> attempt == 0 && delays == []
      decreases retryAttempts + 1 - attempt
    {
      var o := once(attempt);
      if !Retried(o) || attempt == retryAttempts {
        assert delays + [] == delays;
        return o, delays;
      }
      delays := delays + [Backoff(delay, attempt)];
      attempt := attempt + 1;
    }
    return Err(Bedrock("All retry attempts exhausted")), delays;
  }

  /** `invoke_model`: the retry loop over `_invoke_model_once`. */
  method InvokeModel(models: Models.Models, s: Settings, decode: string -> Result<Value, string>,
                     prompt: string, system: Option<string>, call: (Value, nat) -> CallOutcome)
    returns (r: Result<BedrockResponse, Error>, delays: seq<real>)
    ensures (r, delays) == Invoke(attempt => InvokeOnce(models, s, decode, prompt, system, call, attempt), s.retryAttempts, s.retryDelay)
  {
    r, delays := RetryLoop(attempt => InvokeOnce(models, s, decode, prompt, system, call, attempt), s.retryAttempts, s.retryDelay);
  }
}
