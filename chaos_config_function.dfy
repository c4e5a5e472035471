/**
 * The chaos administration endpoints: GET returns the stored configuration,
 * PUT validates an incoming one and replaces the stored configuration only
 * when there is nothing to report. JSON is abstracted: the request body is
 * kept as text for the emptiness check, and what the deserialiser made of it
 * is passed in beside it.
 */
module ChaosConfigFunction {
  import opened Wrappers
  import opened Text
  import opened Models
  import opened ConfigStore
  import ChaosService

  // ---------------------------------------------------------------------------
  // Validation

  const RateError := "FailureRatePercent must be between 0 and 100."
  const ErrorTypeError := "DefaultErrorType is required."
  const DelayError := "LatencySimulation.DelayMs must be between 0 and 30000."

  /** Position of each validation message in the order the checks run. */
  function Rank(message: string): int {
    if message == RateError then 0
    else if message == ErrorTypeError then 1
    else if message == DelayError then 2
    else 3
  }

  /**
   * The messages validation reports for `config`: each constraint is checked
   * on its own, and a failing one contributes its message, in the order rate,
   * error type, delay.
   */
  function ValidationErrors(config: ChaosConfig): (errors: seq<string>)
    ensures RateError in errors <==> !config.RateInRange()
    ensures ErrorTypeError in errors <==> !config.ErrorTypePresent()
    ensures DelayError in errors <==> !config.latencySimulation.DelayInRange()
    ensures errors == [] <==> config.Valid()
    ensures forall i | 0 <= i < |errors| :: Rank(errors[i]) < 3
    ensures forall i, j | 0 <= i < j < |errors| :: Rank(errors[i]) < Rank(errors[j])
  {
    (if config.RateInRange() then [] else [RateError])
    + (if config.ErrorTypePresent() then [] else [ErrorTypeError])
    + (if config.latencySimulation.DelayInRange() then [] else [DelayError])
  }

  /** `ChaosConfigFunction.Validate`: collects the messages one check at a time. */
  method Validate(config: ChaosConfig) returns (errors: seq<string>)
    ensures errors == ValidationErrors(config)
  {
    errors := [];
    if config.failureRatePercent < 0 || config.failureRatePercent > 100 {
      errors := errors + [RateError];
    }
    if IsNullOrWhiteSpace(config.defaultErrorType) {
      errors := errors + [ErrorTypeError];
    }
    if config.latencySimulation.delayMs < 0 || config.latencySimulation.delayMs > 30000 {
      errors := errors + [DelayError];
    }
  }

  /** A rate of 150 on an otherwise default configuration is reported once, and nothing else is. */
  lemma OutOfRangeRateReportedAlone()
    ensures ValidationErrors(DefaultChaosConfig().(failureRatePercent := 150)) == [RateError]
  {
    assert !IsWhiteSpace("500"[0]);
  }

  /** A configuration failing all three checks gets all three messages, in check order. */
  lemma AllChecksReported(config: ChaosConfig)
    requires !config.RateInRange() && !config.ErrorTypePresent()
    requires !config.latencySimulation.DelayInRange()
    ensures ValidationErrors(config) == [RateError, ErrorTypeError, DelayError]
  {
  }

  /**
   * Whatever passes the endpoint's validation also passes the data
   * annotations; the converse fails on the nested delay.
   */
  lemma ValidationCoversAnnotations(config: ChaosConfig)
    ensures ValidationErrors(config) == [] ==> config.AnnotationErrors() == []
    ensures config.AnnotationErrors() == [] && !config.latencySimulation.DelayInRange() ==>
      ValidationErrors(config) == [DelayError]
  {
  }

  /**
   * The error type is only required to be present: a non-numeric one passes
   * validation, and an injected failure then answers with status 500.
   */
  lemma NonNumericErrorTypeAccepted(config: ChaosConfig)
    requires config.RateInRange() && config.latencySimulation.DelayInRange()
    requires config.defaultErrorType == NonNull("timeout")
    ensures ValidationErrors(config) == []
    ensures ChaosService.ParseStatusCode(config.defaultErrorType) == 500
  {
    assert !IsWhiteSpace("timeout"[0]);
    ChaosService.StatusCodeFromErrorType(0, "timeout");
  }

  // ---------------------------------------------------------------------------
  // HTTP boundary

  /** What the deserialiser made of a non-blank body. */
  datatype Deserialized =
    | InvalidJson             // `JsonException`
    | JsonNull                // the literal `null`
    | Config(config: ChaosConfig)

  /** The JSON documents the endpoints write. */
  datatype Payload =
    | ErrorPayload(error: string)
    | ValidationFailedPayload(error: string, details: seq<string>)
    | ConfigPayload(config: ChaosConfig)

  datatype JsonResponse = JsonResponse(status: int, contentType: string, payload: Payload)

  const JsonContentType := "application/json"
  const EmptyBodyError := "Request body is empty."
  const InvalidJsonError := "Request body is not valid JSON."
  const NullBodyError := "Request body deserialised to null."
  const ValidationFailed := "Validation failed"

  /** `BuildErrorResponseAsync`: a JSON object with a single `error` member. */
  function ErrorResponse(status: int, message: string): (r: JsonResponse)
    ensures r.status == status && r.contentType == JsonContentType
    ensures r.payload.ErrorPayload? && r.payload.error == message
  {
    JsonResponse(status, JsonContentType, ErrorPayload(message))
  }

  class ChaosConfigFunction {
    const store: InMemoryChaosConfigStore

    constructor (store: InMemoryChaosConfigStore)
      ensures this.store == store
    {
      this.store := store;
    }

    /** GET: 200 with the stored configuration; the store is only read. */
    method GetChaosConfig() returns (r: JsonResponse)
      ensures r == JsonResponse(200, JsonContentType, ConfigPayload(store.current))
    {
      var config := store.GetAsync();
      r := JsonResponse(200, JsonContentType, ConfigPayload(config));
    }

    /**
     * PUT: rejects a blank body, invalid JSON, a null document and a
     * configuration with validation errors, each with 400 and the store as
     * it was; otherwise stores the configuration and echoes it with 200.
     */
    method UpdateChaosConfig(body: string, parsed: Deserialized) returns (r: JsonResponse)
      modifies store
      ensures IsBlank(body) ==> r == ErrorResponse(400, EmptyBodyError)
      ensures !IsBlank(body) && parsed.InvalidJson? ==> r == ErrorResponse(400, InvalidJsonError)
      ensures !IsBlank(body) && parsed.JsonNull? ==> r == ErrorResponse(400, NullBodyError)
      ensures !IsBlank(body) && parsed.Config? && ValidationErrors(parsed.config) != [] ==>
        r == JsonResponse(400, JsonContentType, ValidationFailedPayload(ValidationFailed, ValidationErrors(parsed.config)))
      ensures r.status == 200 <==> !IsBlank(body) && parsed.Config? && parsed.config.Valid()
      ensures r.status == 200 ==> r == JsonResponse(200, JsonContentType, ConfigPayload(parsed.config))
      ensures r.status == 200 ==> store.current == parsed.config
      ensures r.status != 200 ==> r.status == 400 && store.current == old(store.current)
      ensures old(store.current).Valid() ==> store.current.Valid()
    {
      if IsNullOrWhiteSpace(NonNull(body)) {
        return ErrorResponse(400, EmptyBodyError);
      }
      if parsed.InvalidJson? {
        return ErrorResponse(400, InvalidJsonError);
      }
      if parsed.JsonNull? {
        return ErrorResponse(400, NullBodyError);
      }
      var incoming := parsed.config;
      var validationErrors := Validate(incoming);
      if |validationErrors| > 0 {
        return JsonResponse(400, JsonContentType, ValidationFailedPayload(ValidationFailed, validationErrors));
      }
      store.SaveAsync(incoming);
      r := JsonResponse(200, JsonContentType, ConfigPayload(incoming));
    }
  }

  /**
   * A PUT followed by a GET: the GET returns what the PUT stored when it
   * answered 200, and the earlier configuration otherwise.
   */
  method UpdateThenGet(endpoint: ChaosConfigFunction, body: string, parsed: Deserialized)
    returns (put: JsonResponse, get: JsonResponse)
    modifies endpoint.store
    ensures put.status == 200 ==> parsed.Config? && get.payload == ConfigPayload(parsed.config)
    ensures put.status != 200 ==> get.payload == ConfigPayload(old(endpoint.store.current))
  {
    put := endpoint.UpdateChaosConfig(body, parsed);
    get := endpoint.GetChaosConfig();
  }
}
