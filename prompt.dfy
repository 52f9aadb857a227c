/**
 * What the dashboard sends to the chat service when demo mode is off: the
 * fixed system instruction and the user message built from the form, and how
 * it finds the API key. The service itself and `json.dumps` are not modelled.
 */
module Prompt {
  import opened Basics

  /** The `content` of the user message before serialisation; `None` is JSON `null`. */
  datatype UserPayload = UserPayload(
    address: string,
    estimatedCurrentValue: Option<int>,
    purchasePrice: Option<int>,
    projectionYears: int)

  datatype Message = SystemMessage(text: string) | UserMessage(payload: UserPayload)

  /** The arguments of the chat-completion call. */
  datatype ChatRequest = ChatRequest(model: string, messages: seq<Message>, temperature: real, maxTokens: int)

  /** Why a submission outside demo mode produced no report. */
  datatype Failure =
    | LibraryMissing              // the openai package could not be imported
    | MissingCredential           // no non-empty API key in the environment or the secrets
    | ServiceError(cause: string) // the call itself raised
    | MalformedResponse(cause: string) // neither tier of the extractor could decode the reply

  /** `SYSTEM_PROMPT`: the instruction that fixes the reply's JSON schema. */
  const SystemPrompt: string := @"
You are Valora — a concise, data-driven real estate investment advisor.
Respond ONLY in valid JSON (no extra text) following this schema exactly:

{
  ""property"": {
    ""address"": ""<string>"",
    ""estimated_current_value"": <number>,
    ""currency"": ""USD""
  },
  ""prediction"": {
    ""annual_growth_pct"": <number>,
    ""projection_years"": <int>,
    ""projected_values"": [
      { ""year"": 2025, ""value"": 312000 }
    ],
    ""confidence_pct"": <number>
  },
  ""strategy"": {
    ""best_strategy"": ""<flip|buy_hold|rental|wholesale|other>"",
    ""explanation"": ""<short plain-sentence reason>"",
    ""expected_roi_pct"": <number>
  },
  ""negotiation_tip"": {
    ""amount_off_suggestion"": <number>,
    ""reason"": ""<one-line reason>""
  },
  ""comparables"": [
    { ""address"": ""<string>"", ""sale_price"": <number>, ""days_on_market"": <int> }
  ],
  ""alternative_opportunities"": [
    { ""type"": ""duplex|nearby_house|lot"", ""address"": ""<string>"", ""estimated_roi_pct"": <number> }
  ]
}

Use conservative, professional tone. If any input is missing, make a reasonable assumption but set ""confidence_pct"" lower.
"

  const DefaultTemperature: real := 0.2
  const DefaultMaxTokens: int := 700

  /**
   * The user payload: the address and horizon as entered, and each optional
   * amount only when it is strictly positive (otherwise null).
   */
  function BuildUserPayload(address: string, estimatedValue: int, purchasePrice: int, years: int): (p: UserPayload)
    ensures p.address == address && p.projectionYears == years
    ensures p.estimatedCurrentValue.Some? <==> estimatedValue > 0
    ensures p.estimatedCurrentValue.Some? ==> p.estimatedCurrentValue.value == estimatedValue
    ensures p.purchasePrice.Some? <==> purchasePrice > 0
    ensures p.purchasePrice.Some? ==> p.purchasePrice.value == purchasePrice
  {
    UserPayload(
      address,
      if estimatedValue > 0 then Some(estimatedValue) else None,
      if purchasePrice > 0 then Some(purchasePrice) else None,
      years)
  }

  /** `messages` and the defaults of `call_openai_chat`: the system instruction, then the user payload. */
  function BuildRequest(model: string, payload: UserPayload): (req: ChatRequest)
    ensures req.model == model
    ensures req.messages == [SystemMessage(SystemPrompt), UserMessage(payload)]
    ensures req.temperature == DefaultTemperature && req.maxTokens == DefaultMaxTokens
  {
    ChatRequest(model, [SystemMessage(SystemPrompt), UserMessage(payload)], DefaultTemperature, DefaultMaxTokens)
  }

  /** Python truthiness of an optional string: present and non-empty. */
  predicate Truthy(s: Option<string>)
  {
    s.Some? && s.value != ""
  }

  /**
   * The API key `call_openai_chat` uses. A key typed into the sidebar replaces
   * the environment variable; the environment wins over the secrets file when
   * non-empty; a missing library is reported before any key is looked at.
   */
  function ResolveApiKey(libraryAvailable: bool, sessionKey: Option<string>, envKey: Option<string>,
                         secretKey: Option<string>): (r: Result<string, Failure>)
    ensures !libraryAvailable ==> r == Err(LibraryMissing)
    ensures r.Ok? ==> r.value != ""
    ensures var env := if sessionKey.Some? then sessionKey else envKey;
      && (libraryAvailable && Truthy(env) ==> r == Ok(env.value))
      && (libraryAvailable && !Truthy(env) && Truthy(secretKey) ==> r == Ok(secretKey.value))
      && (libraryAvailable && !Truthy(env) && !Truthy(secretKey) ==> r == Err(MissingCredential))
  {
    if !libraryAvailable then Err(LibraryMissing)
    else
      var env := if sessionKey.Some? then sessionKey else envKey;
      var key := if Truthy(env) then env else secretKey;
      if Truthy(key) then Ok(key.value) else Err(MissingCredential)
  }

  /**
   * Two submissions send the same request exactly when they use the same
   * model and their forms agree on the address, the horizon and every amount
   * that is strictly positive in either form; non-positive amounts are all
   * sent as the same null.
   */
  lemma SameRequestIffSameForm(model1: string, address1: string, estimated1: int, purchase1: int, years1: int,
                               model2: string, address2: string, estimated2: int, purchase2: int, years2: int)
    ensures BuildRequest(model1, BuildUserPayload(address1, estimated1, purchase1, years1))
         == BuildRequest(model2, BuildUserPayload(address2, estimated2, purchase2, years2))
      <==> && model1 == model2 && address1 == address2 && years1 == years2
           && (estimated1 > 0 || estimated2 > 0 ==> estimated1 == estimated2)
           && (purchase1 > 0 || purchase2 > 0 ==> purchase1 == purchase2)
  {
    var p1 := BuildUserPayload(address1, estimated1, purchase1, years1);
    var p2 := BuildUserPayload(address2, estimated2, purchase2, years2);
    var r1, r2 := BuildRequest(model1, p1), BuildRequest(model2, p2);
    if r1 == r2 {
      assert r1.messages[1] == r2.messages[1];
      assert p1 == p2;
    }
  }
}
