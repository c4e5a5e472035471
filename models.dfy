/**
 * The endpoint's model types: the chaos configuration with its nested
 * latency configuration, the chaos decision and the parse result, with the
 * defaults and factory methods the source gives them and the constraints its
 * data annotations declare.
 */
module Models {
  import opened Wrappers
  import opened Text

  // ---------------------------------------------------------------------------
  // LatencyConfig

  const MaxDelayMs: int := 30000

  datatype LatencyConfig = LatencyConfig(isEnabled: bool, delayMs: int)
  {
    /** The `[Range(0, 30000)]` constraint on `DelayMs`. */
    predicate DelayInRange() {
      0 <= delayMs <= MaxDelayMs
    }

    /** The members that data-annotation validation reports as invalid. */
    function AnnotationErrors(): (members: seq<string>)
      ensures members == [] <==> DelayInRange()
    {
      if DelayInRange() then [] else ["DelayMs"]
    }
  }

  /** `new LatencyConfig()`: disabled, no delay. */
  function DefaultLatencyConfig(): (l: LatencyConfig)
    ensures !l.isEnabled && l.delayMs == 0
    ensures l.AnnotationErrors() == []
  {
    LatencyConfig(false, 0)
  }

  // ---------------------------------------------------------------------------
  // ChaosConfig

  datatype ChaosConfig = ChaosConfig(
    isEnabled: bool,
    failureRatePercent: int,
    defaultErrorType: Nullable<string>,
    latencySimulation: LatencyConfig)
  {
    /** The `[Range(0, 100)]` constraint on `FailureRatePercent`. */
    predicate RateInRange() {
      0 <= failureRatePercent <= 100
    }

    /** The `[Required]` constraint on `DefaultErrorType`: not null, empty or white space. */
    predicate ErrorTypePresent() {
      !IsNullOrWhiteSpace(defaultErrorType)
    }

    /**
     * Every constraint of the configuration, the nested latency range included:
     * the constraints the update endpoint enforces.
     */
    predicate Valid() {
      RateInRange() && ErrorTypePresent() && latencySimulation.DelayInRange()
    }

    /**
     * The members that data-annotation validation (`Validator.TryValidateObject`
     * with all properties) reports, in declaration order. That validation does
     * not descend into `LatencySimulation`, so its range is not among them.
     */
    function AnnotationErrors(): (members: seq<string>)
      ensures members == [] <==> RateInRange() && ErrorTypePresent()
      ensures "FailureRatePercent" in members <==> !RateInRange()
      ensures "DefaultErrorType" in members <==> !ErrorTypePresent()
      ensures |members| <= 2
    {
      (if RateInRange() then [] else ["FailureRatePercent"])
      + (if ErrorTypePresent() then [] else ["DefaultErrorType"])
    }
  }

  /** `new ChaosConfig()`: chaos off, 10 % failure rate, error type "500", default latency. */
  function DefaultChaosConfig(): (c: ChaosConfig)
    ensures !c.isEnabled && c.failureRatePercent == 10
    ensures c.defaultErrorType == NonNull("500")
    ensures c.latencySimulation == DefaultLatencyConfig()
  {
    ChaosConfig(false, 10, NonNull("500"), DefaultLatencyConfig())
  }

  /** The default configuration meets every one of its own constraints. */
  lemma DefaultChaosConfigValid()
    ensures DefaultChaosConfig().Valid()
    ensures DefaultChaosConfig().AnnotationErrors() == []
  {
    assert !IsWhiteSpace("500"[0]);
  }

  /**
   * An out-of-range rate on an otherwise default configuration is reported
   * once, under `FailureRatePercent`; an in-range rate is not reported.
   */
  lemma RateAnnotation(rate: int)
    ensures var c := DefaultChaosConfig().(failureRatePercent := rate);
      c.AnnotationErrors() == if 0 <= rate <= 100 then [] else ["FailureRatePercent"]
  {
    assert !IsWhiteSpace("500"[0]);
  }

  /**
   * Annotation validation can pass a configuration the update endpoint
   * rejects: the nested delay is not looked at.
   */
  lemma AnnotationsMissNestedDelay()
    ensures var c := DefaultChaosConfig().(latencySimulation := LatencyConfig(true, MaxDelayMs + 1));
      c.AnnotationErrors() == [] && !c.Valid()
  {
    assert !IsWhiteSpace("500"[0]);
  }

  // ---------------------------------------------------------------------------
  // ChaosDecision

  datatype ChaosDecision = ChaosDecision(shouldFail: bool, statusCode: int, delayMs: int)
  {
    /** A decision that does not fail carries the success status. */
    predicate WellFormed() {
      !shouldFail ==> statusCode == 200
    }
  }

  /** `ChaosDecision.Pass(delayMs = 0)`. */
  function Pass(delayMs: int := 0): (d: ChaosDecision)
    ensures d.WellFormed() && !d.shouldFail && d.delayMs == delayMs
  {
    ChaosDecision(false, 200, delayMs)
  }

  /** `ChaosDecision.Fail(statusCode, delayMs = 0)`. */
  function Fail(statusCode: int, delayMs: int := 0): (d: ChaosDecision)
    ensures d.WellFormed() && d.shouldFail
    ensures d.statusCode == statusCode && d.delayMs == delayMs
  {
    ChaosDecision(true, statusCode, delayMs)
  }

  // ---------------------------------------------------------------------------
  // Hl7ParseResult

  datatype Hl7ParseResult = Hl7ParseResult(isValid: bool, messageControlId: string, errorReason: Nullable<string>)
  {
    /** `IsValid` holds exactly when there is no error reason. */
    predicate Consistent() {
      isValid <==> errorReason.Null?
    }
  }

  /** `Hl7ParseResult.Success(messageControlId)`. */
  function Success(messageControlId: string): (r: Hl7ParseResult)
    ensures r.isValid && r.Consistent() && r.messageControlId == messageControlId
  {
    Hl7ParseResult(true, messageControlId, Null)
  }

  /** `Hl7ParseResult.Failure(reason)`: the control id keeps its default, the empty string. */
  function Failure(reason: string): (r: Hl7ParseResult)
    ensures !r.isValid && r.Consistent()
    ensures r.errorReason == NonNull(reason) && r.messageControlId == ""
  {
    Hl7ParseResult(false, "", NonNull(reason))
  }
}
