/**
 * The fault-injection decision: from a chaos configuration and, only when
 * chaos is switched on, one roll of a uniform random source over [0, 100).
 */
module ChaosService {
  import opened Wrappers
  import opened Text
  import opened Models

  /**
   * The injected random provider. Each value it hands out is logged in
   * `draws`, so a caller can state how many times, and with what result,
   * it was consulted.
   */
  class RandomSource {
    ghost var draws: seq<int>

    constructor ()
      ensures draws == []
    {
      draws := [];
    }

    /** `Next(minValue, maxValue)`: some value in [minValue, maxValue). */
    method Next(minValue: int, maxValue: int) returns (r: int)
      requires minValue < maxValue
      modifies this
      ensures minValue <= r < maxValue
      ensures draws == old(draws) + [r]
    {
      r :| minValue <= r < maxValue;
      draws := draws + [r];
    }
  }

  /**
   * The delay in force: the configured one if latency simulation is on, none
   * otherwise; within the validated range whenever the configuration is.
   */
  function GetDelayMs(config: ChaosConfig): (ms: int)
    ensures ms != 0 ==> config.latencySimulation.isEnabled && ms == config.latencySimulation.delayMs
    ensures config.latencySimulation.isEnabled ==> ms == config.latencySimulation.delayMs
    ensures config.latencySimulation.DelayInRange() ==> 0 <= ms <= MaxDelayMs
  {
    if config.latencySimulation.isEnabled then config.latencySimulation.delayMs else 0
  }

  /**
   * `DefaultErrorType` read as an integer status code, or 500 if it does not
   * parse: a null error type, or one without a digit, gives 500, and every
   * status lies in the 32-bit range.
   */
  function ParseStatusCode(errorType: Nullable<string>): (code: int)
    ensures TryParseInt32(errorType).NonNull? ==> code == TryParseInt32(errorType).value
    ensures TryParseInt32(errorType).Null? ==> code == 500
    ensures errorType.Null? ==> code == 500
    ensures errorType.NonNull? && (forall i | 0 <= i < |errorType.value| :: !IsDigit(errorType.value[i])) ==> code == 500
    ensures Int32Min <= code <= Int32Max
  {
    if errorType.NonNull? && forall i | 0 <= i < |errorType.value| :: !IsDigit(errorType.value[i]) then
      TryParseNeedsDigit(errorType.value);
      500
    else
      match TryParseInt32(errorType)
      case NonNull(v) => v
      case Null => 500
  }

  /**
   * The decision `EvaluateAsync` reaches with `roll` as the value the random
   * provider returns; the roll plays no part when chaos is off, which is
   * when the provider is not asked.
   */
  function Evaluate(config: ChaosConfig, roll: int): (d: ChaosDecision)
    ensures d.WellFormed()
    ensures d.shouldFail <==> config.isEnabled && roll < config.failureRatePercent
    ensures d.shouldFail ==> d.statusCode == ParseStatusCode(config.defaultErrorType)
    ensures d.delayMs == GetDelayMs(config)
  {
    if !config.isEnabled then Pass(GetDelayMs(config))
    else
      var shouldFail := roll < config.failureRatePercent;
      if shouldFail then Fail(ParseStatusCode(config.defaultErrorType), GetDelayMs(config))
      else Pass(GetDelayMs(config))
  }

  /** `ChaosService.EvaluateAsync`: one draw from `rng` when chaos is on, none when it is off. */
  method EvaluateAsync(config: ChaosConfig, rng: RandomSource) returns (d: ChaosDecision)
    modifies rng
    ensures !config.isEnabled ==> rng.draws == old(rng.draws) && d == Pass(GetDelayMs(config))
    ensures config.isEnabled ==>
      && |rng.draws| == |old(rng.draws)| + 1
      && rng.draws == old(rng.draws) + [rng.draws[|old(rng.draws)|]]
      && 0 <= rng.draws[|old(rng.draws)|] < 100
      && d == Evaluate(config, rng.draws[|old(rng.draws)|])
  {
    if !config.isEnabled {
      var passDelay := GetDelayMs(config);
      return Pass(passDelay);
    }
    var roll := rng.Next(0, 100);
    var shouldFail := roll < config.failureRatePercent;
    if shouldFail {
      var statusCode := ParseStatusCode(config.defaultErrorType);
      var failDelay := GetDelayMs(config);
      return Fail(statusCode, failDelay);
    }
    var delay := GetDelayMs(config);
    return Pass(delay);
  }

  // ---------------------------------------------------------------------------
  // Properties of the decision

  /** With chaos off the decision is a pass with status 200, whatever the roll would have been. */
  lemma DisabledAlwaysPasses(config: ChaosConfig, roll1: int, roll2: int)
    requires !config.isEnabled
    ensures var d := Evaluate(config, roll1);
      !d.shouldFail && d.statusCode == 200 && d == Evaluate(config, roll2)
  {
  }

  /**
   * The roll boundary: rate r fails exactly the rolls 0 .. r - 1, so a roll
   * equal to the rate passes, rate 0 never fails and rate 100 always does.
   */
  lemma RollBoundary(config: ChaosConfig, roll: int)
    requires config.isEnabled && 0 <= roll < 100
    ensures roll == config.failureRatePercent ==> !Evaluate(config, roll).shouldFail
    ensures config.failureRatePercent == 0 ==> !Evaluate(config, roll).shouldFail
    ensures config.failureRatePercent == 100 ==> Evaluate(config, roll).shouldFail
  {
  }

  /**
   * Over the hundred possible rolls, an in-range rate fails exactly that
   * many of them: the configured percentage.
   */
  lemma FailingRollsMatchRate(config: ChaosConfig)
    requires config.isEnabled && config.RateInRange()
    ensures |set roll | 0 <= roll < 100 && Evaluate(config, roll).shouldFail| == config.failureRatePercent
  {
    var failing := set roll | 0 <= roll < 100 && Evaluate(config, roll).shouldFail;
    assert failing == RangeSet(config.failureRatePercent);
  }

  /** The integers 0 .. n - 1, built one at a time. */
  function RangeSet(n: nat): (r: set<int>)
    ensures forall i :: i in r <==> 0 <= i < n
    ensures |r| == n
  {
    if n == 0 then {} else RangeSet(n - 1) + {n - 1}
  }

  /** A numeric error type gives that status code; one without digits gives 500. */
  lemma StatusCodeFromErrorType(code: nat, text: string)
    requires code <= Int32Max
    requires forall i | 0 <= i < |text| :: !IsDigit(text[i])
    ensures ParseStatusCode(NonNull(NatToString(code))) == code
    ensures ParseStatusCode(NonNull(text)) == 500
    ensures ParseStatusCode(Null) == 500
  {
    TryParseNatToString(code);
    TryParseNeedsDigit(text);
  }

  /**
   * The error type as text: white space around an optional sign and digits
   * is ignored, the signed value is the status when it fits in 32 bits, and
   * a value outside that range (such as "2147483648") gives 500.
   */
  lemma StatusCodeOfSignedText(lead: string, sign: string, digits: string, trail: string)
    requires IsBlank(lead) && IsBlank(trail)
    requires |sign| <= 1 && forall k | 0 <= k < |sign| :: sign[k] == '-' || sign[k] == '+'
    requires digits != [] && AllDigits(digits)
    ensures var magnitude: int := DigitsValue(digits);
      var v := if sign != [] && sign[0] == '-' then -magnitude else magnitude;
      ParseStatusCode(NonNull(lead + sign + digits + trail)) == if Int32Min <= v <= Int32Max then v else 500
  {
    TryParseSigned(lead, sign, digits, trail);
  }

  /** An error type that is not white space, a sign and digits, such as "503 Service Unavailable", gives 500. */
  lemma MalformedErrorTypeGives500(s: string)
    requires !exists i, k, j | 0 <= i <= k <= j <= |s| :: SignedNumberText(s, i, k, j)
    ensures ParseStatusCode(NonNull(s)) == 500
  {
    if TryParseInt32(NonNull(s)).NonNull? {
      TryParseOnlySigned(s);
    }
  }

  /** The digits "503" are worth 503. */
  lemma Value503()
    ensures AllDigits("503") && DigitsValue("503") == 503
  {
    assert "503"[..2] == "50" && "50"[..1] == "5" && "5"[..0] == "";
  }

  /** With rate 100 and error type "503", every roll yields a 503 failure with the configured delay. */
  lemma FullRateFailsWithConfiguredStatus(config: ChaosConfig, roll: int)
    requires config.isEnabled && config.failureRatePercent == 100
    requires config.defaultErrorType == NonNull("503")
    requires config.latencySimulation == LatencyConfig(true, 1000)
    requires 0 <= roll < 100
    ensures Evaluate(config, roll) == Fail(503, 1000)
  {
    Value503();
    TryParseDigits("503");
  }
}
