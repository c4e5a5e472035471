/**
 * The HL7 intake endpoint: content-type check, body check, parse, chaos
 * decision, optional latency, then either an injected failure or an ACK,
 * with one audit record on every path past the body check.
 *
 * `Handle` is the whole request as a function of its inputs: the roll the
 * random provider would return, the instant the ACK is stamped with and the
 * stopwatch reading are parameters. `Hl7MessageFunction.RunAsync` runs the
 * same steps imperatively against a random source and is proved to agree
 * with `Handle` on the roll it actually draws.
 */
module Hl7MessageFunction {
  import opened Wrappers
  import opened Text
  import opened Models
  import opened Hl7Parser
  import opened AckGenerator
  import opened ChaosService

  const Hl7ContentType := "application/hl7-v2"
  const JsonContentType := "application/json"
  const ContentTypeError := "Expected Content-Type: application/hl7-v2"
  const EmptyBodyError := "Request body is empty."
  /** The control id reported, and acknowledged, when the message cannot be parsed. */
  const UnknownControlId := "UNKNOWN"

  /**
   * An incoming request: the values of its Content-Type header (`Null` when
   * the header is absent) and the body as read.
   */
  datatype Request = Request(contentTypes: Nullable<seq<string>>, body: string)

  /** A response: status, Content-Type header if one is set, and body if one is written. */
  datatype Response = Response(status: int, contentType: Nullable<string>, body: Nullable<string>)

  /** The dimensions of one structured audit log entry; the raw body is not among them. */
  datatype AuditRecord = AuditRecord(
    messageId: string,
    messageControlId: string,
    statusCode: int,
    processingTimeMs: int,
    chaosApplied: bool,
    chaosType: Nullable<string>,
    ackCode: string)
  {
    /** The chaos type as logged: `none` when there is none. */
    function ChaosTypeText(): (text: string)
      ensures chaosType.NonNull? ==> text == chaosType.value
      ensures chaosType.Null? ==> text == "none"
    {
      match chaosType
      case NonNull(t) => t
      case Null => "none"
    }
  }

  /** What a request does besides answering: wait, or write an audit record. */
  datatype Effect = Delay(ms: int) | Audit(record: AuditRecord)

  /** The effects of one request, in order, and its response. */
  datatype Handling = Handling(effects: seq<Effect>, response: Response)

  /** `IsHl7ContentType`: some Content-Type value starts with "application/hl7-v2", ignoring case. */
  predicate IsHl7ContentType(contentTypes: Nullable<seq<string>>) {
    contentTypes.NonNull? &&
    exists i | 0 <= i < |contentTypes.value| :: StartsWithIgnoreCase(contentTypes.value[i], Hl7ContentType)
  }

  /** `BuildErrorResponseAsync`: JSON `{"error":"<message>"}`. */
  function ErrorResponse(status: int, message: string): (r: Response)
    ensures r.status == status && r.contentType == NonNull(JsonContentType)
    ensures r.body.NonNull? && Contains(r.body.value, message)
  {
    var prefix := "{\"error\":\"";
    ContainsInfix(prefix, message, "\"}");
    Response(status, NonNull(JsonContentType), NonNull(prefix + message + "\"}"))
  }

  /** `BuildHl7ResponseAsync`: the HL7 content type and `body` as written. */
  function Hl7Response(status: int, body: string): (r: Response)
    ensures r.status == status && r.contentType == NonNull(Hl7ContentType)
    ensures r.body == NonNull(body)
  {
    Response(status, NonNull(Hl7ContentType), NonNull(body))
  }

  /** The request gets past the content-type and body checks. */
  predicate Admitted(req: Request) {
    IsHl7ContentType(req.contentTypes) && !IsBlank(req.body)
  }

  /** The random provider is consulted: the message parsed and chaos is on. */
  predicate DrawsRoll(req: Request, config: ChaosConfig) {
    Admitted(req) && Parse(NonNull(req.body)).isValid && config.isEnabled
  }

  /** One audit record, last, with nothing but delays before it. */
  predicate AuditedOnce(effects: seq<Effect>) {
    && |effects| >= 1
    && effects[|effects| - 1].Audit?
    && forall i | 0 <= i < |effects| - 1 :: effects[i].Delay?
  }

  /**
   * `RunAsync` on `req` when the chaos service rolls `roll`, the ACK is
   * stamped `now`, and the stopwatch reads `elapsedMs` when stopped.
   */
  function Handle(req: Request, config: ChaosConfig, roll: int, now: DateTime, messageId: string, elapsedMs: int)
    : (h: Handling)
    requires now.Valid()
    ensures !IsHl7ContentType(req.contentTypes) ==> h == Handling([], ErrorResponse(415, ContentTypeError))
    ensures IsHl7ContentType(req.contentTypes) && IsBlank(req.body) ==>
      h == Handling([], ErrorResponse(400, EmptyBodyError))
    ensures Admitted(req) <==> AuditedOnce(h.effects)
    ensures |h.effects| <= 2
  {
    if !IsHl7ContentType(req.contentTypes) then
      Handling([], ErrorResponse(415, ContentTypeError))
    else if IsNullOrWhiteSpace(NonNull(req.body)) then
      Handling([], ErrorResponse(400, EmptyBodyError))
    else
      var parseResult := Parse(NonNull(req.body));
      if !parseResult.isValid then Rejected(now, messageId, elapsedMs)
      else
        assert !IsWhiteSpace(parseResult.messageControlId[0]);
        Decided(parseResult.messageControlId, config, Evaluate(config, roll), now, messageId, elapsedMs)
  }

  /** Step 3 on a parse failure: an AR acknowledgment for the unknown control id. */
  function Rejected(now: DateTime, messageId: string, elapsedMs: int): (h: Handling)
    requires now.Valid()
    ensures AuditedOnce(h.effects) && |h.effects| == 1
  {
    assert !IsWhiteSpace(UnknownControlId[0]) && !IsWhiteSpace("AR"[0]);
    var rejectAck := GenerateAck(NonNull(UnknownControlId), NonNull("AR"), now);
    var record := AuditRecord(messageId, UnknownControlId, 400, elapsedMs, false, Null, "AR");
    Handling([Audit(record)], Hl7Response(400, rejectAck.value))
  }

  /**
   * Steps 5 to 7 once `messageControlId` is parsed and `decision` taken: the
   * delay if any, then the injected failure or the AA acknowledgment.
   */
  function Decided(messageControlId: string, config: ChaosConfig, decision: ChaosDecision,
                   now: DateTime, messageId: string, elapsedMs: int): (h: Handling)
    requires now.Valid() && !IsBlank(messageControlId)
    ensures AuditedOnce(h.effects) && 1 <= |h.effects| <= 2
  {
    var delays := if decision.delayMs > 0 then [Delay(decision.delayMs)] else [];
    if decision.shouldFail then
      var record := AuditRecord(messageId, messageControlId, decision.statusCode, elapsedMs,
                                true, config.defaultErrorType, "CHAOS");
      Handling(delays + [Audit(record)], Response(decision.statusCode, Null, Null))
    else
      assert !IsWhiteSpace("AA"[0]);
      var ack := GenerateAck(NonNull(messageControlId), NonNull("AA"), now);
      var record := AuditRecord(messageId, messageControlId, 200, elapsedMs, false, Null, "AA");
      Handling(delays + [Audit(record)], Hl7Response(200, ack.value))
  }

  /** An admitted request that does not parse is rejected, whatever the roll. */
  lemma HandleRejected(req: Request, config: ChaosConfig, now: DateTime, messageId: string, elapsedMs: int)
    requires now.Valid() && Admitted(req) && !Parse(NonNull(req.body)).isValid
    ensures forall roll :: Handle(req, config, roll, now, messageId, elapsedMs) == Rejected(now, messageId, elapsedMs)
  {
  }

  /** An admitted request that parses is decided by the chaos decision for the roll. */
  lemma HandleDecided(req: Request, config: ChaosConfig, now: DateTime, messageId: string, elapsedMs: int)
    requires now.Valid() && Admitted(req) && Parse(NonNull(req.body)).isValid
    ensures var id := Parse(NonNull(req.body)).messageControlId;
      && !IsBlank(id)
      && forall roll :: Handle(req, config, roll, now, messageId, elapsedMs) == Decided(id, config, Evaluate(config, roll), now, messageId, elapsedMs)
  {
    var id := Parse(NonNull(req.body)).messageControlId;
    assert !IsWhiteSpace(id[0]);
  }

  /** The last effect of an admitted request: its audit record. */
  function AuditOf(h: Handling): AuditRecord
    requires AuditedOnce(h.effects)
  {
    h.effects[|h.effects| - 1].record
  }

  // ---------------------------------------------------------------------------
  // The paths through a request

  /**
   * The Content-Type gate over whole headers: a missing header is refused,
   * and each value is judged on its own, so a list passes exactly when one
   * of its parts does.
   */
  lemma ContentTypeGate(values: seq<string>, more: seq<string>)
    ensures !IsHl7ContentType(Null)
    ensures IsHl7ContentType(NonNull(values + more)) <==>
      IsHl7ContentType(NonNull(values)) || IsHl7ContentType(NonNull(more))
  {
    var all := values + more;
    if IsHl7ContentType(NonNull(all)) {
      var i :| 0 <= i < |all| && StartsWithIgnoreCase(all[i], Hl7ContentType);
      if i >= |values| {
        assert more[i - |values|] == all[i];
      }
    }
    if IsHl7ContentType(NonNull(values)) {
      var i :| 0 <= i < |values| && StartsWithIgnoreCase(values[i], Hl7ContentType);
      assert all[i] == values[i];
    }
    if IsHl7ContentType(NonNull(more)) {
      var i :| 0 <= i < |more| && StartsWithIgnoreCase(more[i], Hl7ContentType);
      assert all[|values| + i] == more[i];
    }
  }

  /**
   * The Content-Type gate on one value: it passes exactly when it starts
   * with the HL7 media type ignoring case, so that type passes in any letter
   * case and with any parameters after it, and a shorter value never does.
   */
  lemma ContentTypeValueGate(value: string, parameters: string)
    ensures IsHl7ContentType(NonNull([value])) <==> StartsWithIgnoreCase(value, Hl7ContentType)
    ensures IsHl7ContentType(NonNull([Hl7ContentType + parameters]))
    ensures IsHl7ContentType(NonNull([UpperAscii(Hl7ContentType) + parameters]))
    ensures |value| < |Hl7ContentType| ==> !IsHl7ContentType(NonNull([value]))
  {
    SingleContentType(value);
    StartsWithIgnoreCaseAnyCase(Hl7ContentType, parameters);
    SingleContentType(Hl7ContentType + parameters);
    SingleContentType(UpperAscii(Hl7ContentType) + parameters);
  }

  /** A header with one value passes exactly when that value does. */
  lemma SingleContentType(value: string)
    ensures IsHl7ContentType(NonNull([value])) <==> StartsWithIgnoreCase(value, Hl7ContentType)
  {
    assert [value][0] == value;
  }

  /** Which Content-Type values are accepted: a prefix match, in any letter case, on any value. */
  lemma ContentTypeExamples()
    ensures !IsHl7ContentType(Null)
    ensures !IsHl7ContentType(NonNull([]))
    ensures !IsHl7ContentType(NonNull(["application/json"]))
    ensures IsHl7ContentType(NonNull(["application/hl7-v2"]))
    ensures IsHl7ContentType(NonNull(["text/plain", "Application/HL7-v2; charset=utf-8"]))
  {
    assert StartsWithIgnoreCase("application/hl7-v2", Hl7ContentType);
    assert ["application/hl7-v2"][0] == "application/hl7-v2";
    var upper := "Application/HL7-v2; charset=utf-8";
    assert StartsWithIgnoreCase(upper, Hl7ContentType);
    assert ["text/plain", upper][1] == upper;
    assert !StartsWithIgnoreCase("application/json", Hl7ContentType) by {
      assert AsciiUpper("application/json"[12]) != AsciiUpper(Hl7ContentType[12]);
    }
  }

  /**
   * A message that does not parse is answered 400 with an AR acknowledgment
   * for control id "UNKNOWN", logged once without chaos; the roll is not used.
   */
  lemma ParseFailureOutcome(req: Request, config: ChaosConfig, roll: int, now: DateTime, messageId: string, elapsedMs: int)
    requires now.Valid() && Admitted(req) && !Parse(NonNull(req.body)).isValid
    ensures var h := Handle(req, config, roll, now, messageId, elapsedMs);
      && h.effects == [Audit(AuditRecord(messageId, UnknownControlId, 400, elapsedMs, false, Null, "AR"))]
      && h.response.status == 400 && h.response.contentType == NonNull(Hl7ContentType)
      && h.response.body.NonNull?
      && AckField(h.response.body.value, 1, 1) == NonNull("AR")
      && AckField(h.response.body.value, 1, 2) == NonNull(UnknownControlId)
      && AckField(h.response.body.value, 1, 3) == NonNull("Application reject")
  {
    HandleRejected(req, config, now, messageId, elapsedMs);
    RejectedAcknowledges(now, messageId, elapsedMs);
  }

  lemma RejectedAcknowledges(now: DateTime, messageId: string, elapsedMs: int)
    requires now.Valid()
    ensures var h := Rejected(now, messageId, elapsedMs);
      && h.response.body.NonNull?
      && AckField(h.response.body.value, 1, 1) == NonNull("AR")
      && AckField(h.response.body.value, 1, 2) == NonNull(UnknownControlId)
      && AckField(h.response.body.value, 1, 3) == NonNull("Application reject")
  {
    assert !IsWhiteSpace(UnknownControlId[0]) && !IsWhiteSpace("AR"[0]);
    AckStatusFields(UnknownControlId, "AR", now);
  }

  /**
   * An injected failure answers with the configured error status and no body
   * and is logged as chaos with the configured error type; the delay, if
   * latency simulation is on, comes first.
   */
  lemma ChaosFailureOutcome(req: Request, config: ChaosConfig, roll: int, now: DateTime, messageId: string, elapsedMs: int)
    requires now.Valid() && DrawsRoll(req, config) && roll < config.failureRatePercent
    ensures var h := Handle(req, config, roll, now, messageId, elapsedMs);
      var id := Parse(NonNull(req.body)).messageControlId;
      var status := ParseStatusCode(config.defaultErrorType);
      && h.response == Response(status, Null, Null)
      && AuditOf(h) == AuditRecord(messageId, id, status, elapsedMs, true, config.defaultErrorType, "CHAOS")
      && h.effects[0] == (if GetDelayMs(config) > 0 then Delay(GetDelayMs(config)) else Audit(AuditOf(h)))
  {
    HandleDecided(req, config, now, messageId, elapsedMs);
  }

  /**
   * A parsed message that chaos lets through is answered 200 with an AA
   * acknowledgment echoing its control id, and logged without chaos.
   */
  lemma AcceptedOutcome(req: Request, config: ChaosConfig, roll: int, now: DateTime, messageId: string, elapsedMs: int)
    requires now.Valid() && Admitted(req) && Parse(NonNull(req.body)).isValid
    requires !(config.isEnabled && roll < config.failureRatePercent)
    ensures var h := Handle(req, config, roll, now, messageId, elapsedMs);
      var id := Parse(NonNull(req.body)).messageControlId;
      && h.response.status == 200 && h.response.contentType == NonNull(Hl7ContentType)
      && h.response.body.NonNull?
      && AckField(h.response.body.value, 1, 1) == NonNull("AA")
      && AckField(h.response.body.value, 1, 2) == NonNull(id)
      && AuditOf(h) == AuditRecord(messageId, id, 200, elapsedMs, false, Null, "AA")
      && h.effects[0] == (if GetDelayMs(config) > 0 then Delay(GetDelayMs(config)) else Audit(AuditOf(h)))
  {
    HandleDecided(req, config, now, messageId, elapsedMs);
    ParsedControlIdShape(NonNull(req.body));
    var id := Parse(NonNull(req.body)).messageControlId;
    var decision := Evaluate(config, roll);
    assert !decision.shouldFail && decision.delayMs == GetDelayMs(config);
    DecidedAcknowledges(id, config, decision, now, messageId, elapsedMs);
  }

  lemma DecidedAcknowledges(id: string, config: ChaosConfig, decision: ChaosDecision,
                            now: DateTime, messageId: string, elapsedMs: int)
    requires now.Valid() && IsControlId(id) && !decision.shouldFail
    ensures !IsBlank(id)
    ensures var h := Decided(id, config, decision, now, messageId, elapsedMs);
      && h.response.status == 200 && h.response.contentType == NonNull(Hl7ContentType)
      && h.response.body.NonNull?
      && AckField(h.response.body.value, 1, 1) == NonNull("AA")
      && AckField(h.response.body.value, 1, 2) == NonNull(id)
      && AuditOf(h) == AuditRecord(messageId, id, 200, elapsedMs, false, Null, "AA")
      && h.effects[0] == (if decision.delayMs > 0 then Delay(decision.delayMs) else Audit(AuditOf(h)))
  {
    assert !IsWhiteSpace(id[0]) && !IsWhiteSpace("AA"[0]);
    AckStatusFields(id, "AA", now);
  }

  /** The roll makes a difference only to a parsed message with chaos switched on. */
  lemma RollIrrelevantUnlessDrawn(req: Request, config: ChaosConfig, roll1: int, roll2: int,
                                  now: DateTime, messageId: string, elapsedMs: int)
    requires now.Valid() && !DrawsRoll(req, config)
    ensures Handle(req, config, roll1, now, messageId, elapsedMs) == Handle(req, config, roll2, now, messageId, elapsedMs)
  {
    if Admitted(req) && Parse(NonNull(req.body)).isValid {
      HandleDecided(req, config, now, messageId, elapsedMs);
      assert Evaluate(config, roll1) == Evaluate(config, roll2);
    }
  }

  /**
   * A delay happens exactly for a parsed message under latency simulation
   * with a positive delay, and it is then the configured delay, before the
   * audit record.
   */
  lemma DelayOnlyAfterParse(req: Request, config: ChaosConfig, roll: int, now: DateTime, messageId: string, elapsedMs: int)
    requires now.Valid()
    ensures var h := Handle(req, config, roll, now, messageId, elapsedMs);
      && ((exists i | 0 <= i < |h.effects| :: h.effects[i].Delay?) <==>
          Admitted(req) && Parse(NonNull(req.body)).isValid && GetDelayMs(config) > 0)
      && forall i | 0 <= i < |h.effects| && h.effects[i].Delay? :: i == 0 && h.effects[i].ms == GetDelayMs(config)
  {
    if Admitted(req) && Parse(NonNull(req.body)).isValid {
      HandleDecided(req, config, now, messageId, elapsedMs);
      var id := Parse(NonNull(req.body)).messageControlId;
      DecidedDelay(id, config, Evaluate(config, roll), now, messageId, elapsedMs);
    } else if Admitted(req) {
      HandleRejected(req, config, now, messageId, elapsedMs);
    }
  }

  /** Past the parse, the only delay is the decision's, first, and only when positive. */
  lemma DecidedDelay(id: string, config: ChaosConfig, decision: ChaosDecision,
                     now: DateTime, messageId: string, elapsedMs: int)
    requires now.Valid() && !IsBlank(id)
    ensures var h := Decided(id, config, decision, now, messageId, elapsedMs);
      && ((exists i | 0 <= i < |h.effects| :: h.effects[i].Delay?) <==> decision.delayMs > 0)
      && forall i | 0 <= i < |h.effects| && h.effects[i].Delay? :: i == 0 && h.effects[i].ms == decision.delayMs
  {
    var h := Decided(id, config, decision, now, messageId, elapsedMs);
    if decision.delayMs > 0 {
      assert h.effects[0] == Delay(decision.delayMs);
    } else {
      assert |h.effects| == 1;
    }
  }

  /**
   * Only an injected failure leaves the response without a body: every
   * other answer carries a JSON error or an acknowledgment.
   */
  lemma BodylessExactlyOnChaos(req: Request, config: ChaosConfig, roll: int, now: DateTime, messageId: string, elapsedMs: int)
    requires now.Valid()
    ensures Handle(req, config, roll, now, messageId, elapsedMs).response.body.Null? <==>
      DrawsRoll(req, config) && roll < config.failureRatePercent
  {
    if Admitted(req) && Parse(NonNull(req.body)).isValid {
      HandleDecided(req, config, now, messageId, elapsedMs);
    } else if Admitted(req) {
      HandleRejected(req, config, now, messageId, elapsedMs);
    }
  }

  /**
   * The audit record names the message by its control id, or by "UNKNOWN"
   * when it did not parse; a parsed control id holds no field separator, so
   * it is never the body itself.
   */
  lemma AuditOmitsBody(req: Request, config: ChaosConfig, roll: int, now: DateTime, messageId: string, elapsedMs: int)
    requires now.Valid() && Admitted(req)
    ensures var h := Handle(req, config, roll, now, messageId, elapsedMs);
      var parsed := Parse(NonNull(req.body));
      && AuditOf(h).messageId == messageId
      && AuditOf(h).messageControlId == (if parsed.isValid then parsed.messageControlId else UnknownControlId)
      && (parsed.isValid ==> AuditOf(h).messageControlId != req.body)
  {
    var parsed := Parse(NonNull(req.body));
    if parsed.isValid {
      HandleDecided(req, config, now, messageId, elapsedMs);
      ParsedControlIdShape(NonNull(req.body));
      ParsedBodyHasSeparator(req.body);
    } else {
      HandleRejected(req, config, now, messageId, elapsedMs);
    }
  }

  /** A body that parses holds at least one field separator. */
  lemma ParsedBodyHasSeparator(body: string)
    requires Parse(NonNull(body)).isValid
    ensures exists k | 0 <= k < |body| :: body[k] == FieldSeparator
  {
    var segments := RemoveEmpty(Split(body, LineBreaks));
    var seg := FirstSegment(body).value;
    assert seg == segments[0];
    var fields := Split(seg, {FieldSeparator});
    assert |fields| > 1;
    if Avoids(seg, {FieldSeparator}) {
      SplitWithoutSeparators(seg, {FieldSeparator});
      assert false;
    }
    var j :| 0 <= j < |seg| && seg[j] == FieldSeparator;
    var k :| 0 <= k < |Split(body, LineBreaks)| && Split(body, LineBreaks)[k] == seg;
    SplitPieceIn(body, LineBreaks, k, j);
  }

  // ---------------------------------------------------------------------------
  // End-to-end scenarios

  /** A request carrying the "ALPHA123" test message in the HL7 content type. */
  function ExampleRequest(): Request {
    Request(NonNull([Hl7ContentType]), Join(ExampleFields, "|"))
  }

  /** With chaos off, the test message is accepted with an AA acknowledgment for "ALPHA123". */
  lemma ExampleAccepted(roll: int, now: DateTime, messageId: string, elapsedMs: int)
    requires now.Valid()
    ensures var h := Handle(ExampleRequest(), DefaultChaosConfig(), roll, now, messageId, elapsedMs);
      && h.response.status == 200 && h.response.body.NonNull?
      && AckField(h.response.body.value, 1, 2) == NonNull("ALPHA123")
      && h.effects == [Audit(AuditRecord(messageId, "ALPHA123", 200, elapsedMs, false, Null, "AA"))]
  {
    ExampleAdmitted();
    AcceptedOutcome(ExampleRequest(), DefaultChaosConfig(), roll, now, messageId, elapsedMs);
    DelayOnlyAfterParse(ExampleRequest(), DefaultChaosConfig(), roll, now, messageId, elapsedMs);
  }

  /**
   * With chaos always on, error type "503" and a one-second delay, the test
   * message waits a second and is answered 503 with no body.
   */
  lemma ExampleChaosFailure(roll: int, now: DateTime, messageId: string, elapsedMs: int)
    requires now.Valid() && 0 <= roll < 100
    ensures var config := ChaosConfig(true, 100, NonNull("503"), LatencyConfig(true, 1000));
      var h := Handle(ExampleRequest(), config, roll, now, messageId, elapsedMs);
      && h.response == Response(503, Null, Null)
      && h.effects == [Delay(1000), Audit(AuditRecord(messageId, "ALPHA123", 503, elapsedMs, true, config.defaultErrorType, "CHAOS"))]
  {
    var config := ChaosConfig(true, 100, NonNull("503"), LatencyConfig(true, 1000));
    ExampleAdmitted();
    FullRateFailsWithConfiguredStatus(config, roll);
    ChaosOutcomeWith(ExampleRequest(), config, roll, now, messageId, elapsedMs, 503, 1000);
  }

  /** A parsed message failed by chaos with a known status and a positive delay: the whole trace. */
  lemma ChaosOutcomeWith(req: Request, config: ChaosConfig, roll: int, now: DateTime, messageId: string, elapsedMs: int,
                         status: int, delayMs: int)
    requires now.Valid() && DrawsRoll(req, config)
    requires Evaluate(config, roll) == Fail(status, delayMs) && delayMs > 0
    ensures var h := Handle(req, config, roll, now, messageId, elapsedMs);
      var id := Parse(NonNull(req.body)).messageControlId;
      && h.response == Response(status, Null, Null)
      && h.effects == [Delay(delayMs), Audit(AuditRecord(messageId, id, status, elapsedMs, true, config.defaultErrorType, "CHAOS"))]
  {
    HandleDecided(req, config, now, messageId, elapsedMs);
  }

  lemma ExampleAdmitted()
    ensures Admitted(ExampleRequest())
    ensures Parse(NonNull(ExampleRequest().body)) == Success("ALPHA123")
  {
    assert IsHl7ContentType(NonNull([Hl7ContentType])) by {
      assert StartsWithIgnoreCase(Hl7ContentType, Hl7ContentType);
      assert [Hl7ContentType][0] == Hl7ContentType;
    }
    ParseExampleMessage();
    assert !IsBlank(ExampleRequest().body) by {
      assert Join(ExampleFields, "|")[0] == 'M';
    }
  }

  class Hl7MessageFunction {
    /** `IOptions<ChaosConfig>.Value`: the configuration bound at start-up. */
    const chaosConfig: ChaosConfig
    /** The random provider behind the chaos service. */
    const random: RandomSource

    constructor (chaosConfig: ChaosConfig, random: RandomSource)
      ensures this.chaosConfig == chaosConfig && this.random == random
    {
      this.chaosConfig := chaosConfig;
      this.random := random;
    }

    /**
     * `RunAsync`: the random provider is consulted once exactly when the
     * message parsed and chaos is on, and what comes out is `Handle` with
     * the value it returned.
     */
    method RunAsync(req: Request, now: DateTime, messageId: string, elapsedMs: int) returns (h: Handling)
      requires now.Valid()
      modifies random
      ensures !DrawsRoll(req, chaosConfig) ==>
        && random.draws == old(random.draws)
        && forall roll :: h == Handle(req, chaosConfig, roll, now, messageId, elapsedMs)
      ensures DrawsRoll(req, chaosConfig) ==>
        exists roll | 0 <= roll < 100 ::
          && random.draws == old(random.draws) + [roll]
          && h == Handle(req, chaosConfig, roll, now, messageId, elapsedMs)
    {
      if !IsHl7ContentType(req.contentTypes) {
        return Handling([], ErrorResponse(415, ContentTypeError));
      }
      if IsNullOrWhiteSpace(NonNull(req.body)) {
        return Handling([], ErrorResponse(400, EmptyBodyError));
      }
      var parseResult := Parse(NonNull(req.body));
      if !parseResult.isValid {
        assert !IsWhiteSpace(UnknownControlId[0]) && !IsWhiteSpace("AR"[0]);
        var rejectAck := GenerateAck(NonNull(UnknownControlId), NonNull("AR"), now);
        var record := AuditRecord(messageId, UnknownControlId, 400, elapsedMs, false, Null, "AR");
        h := Handling([Audit(record)], Hl7Response(400, rejectAck.value));
        HandleRejected(req, chaosConfig, now, messageId, elapsedMs);
        return;
      }
      var messageControlId := parseResult.messageControlId;
      assert !IsWhiteSpace(messageControlId[0]);
      ghost var before := random.draws;
      var decision := EvaluateAsync(chaosConfig, random);
      ghost var roll := if chaosConfig.isEnabled then random.draws[|before|] else 0;
      var delays: seq<Effect> := [];
      if decision.delayMs > 0 {
        delays := [Delay(decision.delayMs)];
      }
      if decision.shouldFail {
        var record := AuditRecord(messageId, messageControlId, decision.statusCode, elapsedMs,
                                  true, chaosConfig.defaultErrorType, "CHAOS");
        h := Handling(delays + [Audit(record)], Response(decision.statusCode, Null, Null));
      } else {
        assert !IsWhiteSpace("AA"[0]);
        var ack := GenerateAck(NonNull(messageControlId), NonNull("AA"), now);
        var record := AuditRecord(messageId, messageControlId, 200, elapsedMs, false, Null, "AA");
        h := Handling(delays + [Audit(record)], Hl7Response(200, ack.value));
      }
      assert h == Decided(messageControlId, chaosConfig, decision, now, messageId, elapsedMs);
      HandleDecided(req, chaosConfig, now, messageId, elapsedMs);
      if chaosConfig.isEnabled {
        assert random.draws == before + [roll];
      }
    }
  }
}
