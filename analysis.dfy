/**
 * What one press of "Analyze" produces: the canned report, the locally
 * generated report, or the outcome of asking the chat service. The service
 * call is the parameter `service` (request and API key to the reply text or
 * the raised error's message) and the JSON decoder is the parameter `parse`.
 */
module Analysis {
  import opened Basics
  import opened Report
  import opened Projection
  import opened Prompt
  import opened Extraction

  /** The form's values. */
  datatype FormInput = FormInput(address: string, estimatedValue: int, purchasePrice: int, years: int)

  /** The sidebar's values: the demo-mode checkbox, the model and the key typed in this session, if any. */
  datatype Settings = Settings(demoMode: bool, model: string, sessionKey: Option<string>)

  /** What the process sees: whether openai imported, `OPENAI_API_KEY` and the secrets file's key. */
  datatype Environment = Environment(libraryAvailable: bool, envKey: Option<string>, secretKey: Option<string>)

  /** The `result` to render, or the failure shown before the script stops. */
  datatype Outcome<J> = Local(report: InvestmentReport) | Remote(document: J) | Failed(failure: Failure)

  /**
   * The branch taken when demo mode is off: resolve the key, call the service
   * once, then extract the document from the reply; any error ends the submission.
   */
  function RemoteOutcome<J>(settings: Settings, env: Environment, input: FormInput,
                            service: (ChatRequest, string) -> Result<string, string>,
                            parse: string -> Result<J, string>): (o: Outcome<J>)
    ensures !o.Local?
    ensures var key := ResolveApiKey(env.libraryAvailable, settings.sessionKey, env.envKey, env.secretKey);
      key.Err? ==> o == Failed(key.error)
    ensures var key := ResolveApiKey(env.libraryAvailable, settings.sessionKey, env.envKey, env.secretKey);
      var req := BuildRequest(settings.model, BuildUserPayload(input.address, input.estimatedValue, input.purchasePrice, input.years));
      && (o.Failed? && o.failure.ServiceError? ==> key.Ok? && service(req, key.value) == Err(o.failure.cause))
      && (o.Failed? && o.failure.MalformedResponse? ==>
            key.Ok? && service(req, key.value).Ok?
            && parse(FirstTierText(service(req, key.value).value)).Err?
            && parse(SecondTierText(service(req, key.value).value)) == Err(o.failure.cause))
    ensures var key := ResolveApiKey(env.libraryAvailable, settings.sessionKey, env.envKey, env.secretKey);
      var req := BuildRequest(settings.model, BuildUserPayload(input.address, input.estimatedValue, input.purchasePrice, input.years));
      key.Ok? && service(req, key.value).Ok? ==>
        o == (match ParseJsonSafe(service(req, key.value).value, parse)
              case Ok(d) => Remote(d)
              case Err(c) => Failed(MalformedResponse(c)))
    ensures o.Failed? && (o.failure.LibraryMissing? || o.failure.MissingCredential?) ==>
      ResolveApiKey(env.libraryAvailable, settings.sessionKey, env.envKey, env.secretKey).Err?
  {
    match ResolveApiKey(env.libraryAvailable, settings.sessionKey, env.envKey, env.secretKey)
    case Err(f) => Failed(f)
    case Ok(key) =>
      var payload := BuildUserPayload(input.address, input.estimatedValue, input.purchasePrice, input.years);
      match service(BuildRequest(settings.model, payload), key)
      case Err(cause) => Failed(ServiceError(cause))
      case Ok(raw) =>
        match ParseJsonSafe(raw, parse)
        case Ok(document) => Remote(document)
        case Err(cause) => Failed(MalformedResponse(cause))
  }

  /** One submission of the form. */
  method Analyze<J>(settings: Settings, env: Environment, input: FormInput, currentYear: int,
                    service: (ChatRequest, string) -> Result<string, string>,
                    parse: string -> Result<J, string>)
    returns (o: Outcome<J>)
    ensures settings.demoMode && input.address in DemoResults ==> o == Local(DemoResults[input.address])
    ensures settings.demoMode && input.address !in DemoResults ==>
      o.Local? && IsDemoReport(o.report, input.address, input.estimatedValue, input.purchasePrice, input.years, currentYear)
    ensures !settings.demoMode ==> o == RemoteOutcome(settings, env, input, service, parse)
  {
    if settings.demoMode && input.address in DemoResults {
      o := Local(DemoResults[input.address]);
    } else if settings.demoMode {
      var report := GenerateDemoReport(input.address, input.estimatedValue, input.purchasePrice, input.years, currentYear);
      o := Local(report);
    } else {
      o := RemoteOutcome(settings, env, input, service, parse);
    }
  }

  /**
   * Without a usable key (or without the library) the submission fails the
   * same way whatever the service would have answered: no call is made.
   */
  lemma NoKeyNoCall<J>(settings: Settings, env: Environment, input: FormInput,
                       service1: (ChatRequest, string) -> Result<string, string>,
                       service2: (ChatRequest, string) -> Result<string, string>,
                       parse: string -> Result<J, string>)
    requires ResolveApiKey(env.libraryAvailable, settings.sessionKey, env.envKey, env.secretKey).Err?
    ensures RemoteOutcome(settings, env, input, service1, parse) == RemoteOutcome(settings, env, input, service2, parse)
    ensures RemoteOutcome(settings, env, input, service1, parse).Failed?
    ensures var f := RemoteOutcome(settings, env, input, service1, parse).failure;
      f == LibraryMissing || f == MissingCredential
  {
  }

  /**
   * Outside demo mode a report is only ever a document that one of the two
   * extraction tiers decoded from the service's reply to the built request.
   */
  lemma RemoteDocumentComesFromReply<J>(settings: Settings, env: Environment, input: FormInput,
                                        service: (ChatRequest, string) -> Result<string, string>,
                                        parse: string -> Result<J, string>)
    requires RemoteOutcome(settings, env, input, service, parse).Remote?
    ensures var key := ResolveApiKey(env.libraryAvailable, settings.sessionKey, env.envKey, env.secretKey);
      var req := BuildRequest(settings.model, BuildUserPayload(input.address, input.estimatedValue, input.purchasePrice, input.years));
      && key.Ok?
      && service(req, key.value).Ok?
      && var raw := service(req, key.value).value;
         var doc := RemoteOutcome(settings, env, input, service, parse).document;
         parse(FirstTierText(raw)) == Ok(doc) || parse(SecondTierText(raw)) == Ok(doc)
  {
  }

  /**
   * The amounts that the local base selection skips are exactly the ones the
   * payload sends as null; the base is the first amount the payload keeps.
   */
  lemma BaseFollowsPayload(input: FormInput)
    ensures var p := BuildUserPayload(input.address, input.estimatedValue, input.purchasePrice, input.years);
      SelectBase(input.estimatedValue, input.purchasePrice) ==
        if p.estimatedCurrentValue.Some? then p.estimatedCurrentValue.value
        else if p.purchasePrice.Some? then p.purchasePrice.value
        else FallbackBase
  {
  }

  /**
   * The canned report answers only for its exact address and keeps the
   * horizon it was written with (three years), whatever horizon was requested.
   */
  lemma CannedReportIgnoresHorizon(input: FormInput)
    requires input.address == DemoAddress
    ensures DemoResults[input.address].prediction.projectionYears == 3
    ensures |DemoResults[input.address].prediction.projectedValues| == 3
    ensures input.years != 3 ==> DemoResults[input.address].prediction.projectionYears != input.years
  {
  }
}
