# HL7 Endpoint Mirror — a Dafny model of its message-processing core

HL7 Endpoint Mirror is a test endpoint for HL7 version 2 integrations. A
client posts a message to it. The endpoint reads the message control id
(MSH-10) and answers with an HL7 acknowledgment (ACK) echoing that id. On
demand it injects faults first: added latency, or a configured error status
instead of the ACK. An admin endpoint reads and replaces the fault-injection
("chaos") configuration, which is held in an in-memory store.

The model follows the source file by file, one Dafny module each:

- `Wrappers`: `Nullable` for C# references that may be null, and `Outcome` for a call that returns or throws.
- `Text`: the .NET string operations the core relies on. It models:
  - `Split` with and without empty entries, `string.Join` and `Trim`;
  - ordinal case-insensitive `StartsWith`;
  - `int.TryParse`;
  - decimal and zero-padded number formatting.
- `Models`: the datatypes `LatencyConfig`, `ChaosConfig`, `ChaosDecision` and `Hl7ParseResult`. Each keeps its defaults, its factory methods and its data-annotation constraints.
- `Hl7Parser`: `Parse`, a pure function.
- `AckGenerator`: `GenerateAck`. The current UTC time is a parameter.
- `ChaosService`: the decision as a pure function of the configuration and the roll (`Evaluate`), plus `EvaluateAsync`. `EvaluateAsync` is a method drawing from a `RandomSource` class; its ghost log of draws shows when the random provider is consulted.
- `ConfigStore`: `InMemoryChaosConfigStore`, a class with one mutable field.
- `ChaosConfigFunction`:
  - `Validate` is a method that appends messages. It is proved equal to the function `ValidationErrors`.
  - GET and PUT are methods of a class holding the store. JSON deserialisation is an input.
- `Hl7MessageFunction`: the intake endpoint.
  - `Handle` is the whole request as a pure function. Its result is the ordered effects (delay, audit record) and the response.
  - `Hl7MessageFunction.RunAsync` runs the same steps against a `RandomSource`. It is proved to agree with `Handle` on the roll it draws, and to draw only when the message parsed and chaos is on.

The request handler takes its chaos configuration from the value bound at start-up (`IOptions<ChaosConfig>`), as the source does (src/HL7EndpointMirror.Functions/Functions/Hl7MessageFunction.cs:88, :111). It does not read the store. So an update through the admin endpoint changes what GET returns but not how messages are handled, and the model does not claim otherwise.

## Model

| member | source | states |
|---|---|---|
| Models.DefaultLatencyConfig | src/HL7EndpointMirror.Functions/Models/LatencyConfig.cs:8-11 | latency simulation is off with a 0 ms delay by default, and that default breaks no constraint |
| Models.LatencyConfig.AnnotationErrors | src/HL7EndpointMirror.Functions/Models/LatencyConfig.cs:10-11 | validation reports an error exactly when `DelayMs` lies outside 0..30000 |
| Models.ChaosConfig.AnnotationErrors | src/HL7EndpointMirror.Functions/Models/ChaosConfig.cs:10-14 | annotation validation reports `FailureRatePercent` exactly when it is outside 0..100, and `DefaultErrorType` exactly when it is null, empty or white space; it reports no more than those two |
| Models.DefaultChaosConfig | src/HL7EndpointMirror.Functions/Models/ChaosConfig.cs:8-16 | defaults: chaos off, rate 10, error type "500", default latency |
| Models.DefaultChaosConfigValid | src/HL7EndpointMirror.Functions/Models/ChaosConfig.cs:8-16 | the default configuration satisfies every constraint, the nested delay range included |
| Models.RateAnnotation | tests/HL7EndpointMirror.Tests/Functions/Hl7MessageFunctionTests.cs:56-86 | rate 150 on a default configuration gives exactly one annotation error, naming `FailureRatePercent`; any rate in 0..100, 50 among them, gives none |
| Models.AnnotationsMissNestedDelay | src/HL7EndpointMirror.Functions/Models/ChaosConfig.cs:16 | annotation validation does not descend into `LatencySimulation`, so an out-of-range delay passes it while the configuration is not valid |
| Models.Pass | src/HL7EndpointMirror.Functions/Models/ChaosDecision.cs:9-14 | a pass does not fail, has status 200 and carries the given delay, 0 when omitted |
| Models.Fail | src/HL7EndpointMirror.Functions/Models/ChaosDecision.cs:16-21 | a failure fails, with the given status and delay, the delay 0 when omitted |
| Models.Success | src/HL7EndpointMirror.Functions/Models/Hl7ParseResult.cs:9-13 | a success is valid, carries the control id and has no error reason |
| Models.Failure | src/HL7EndpointMirror.Functions/Models/Hl7ParseResult.cs:15-19 | a failure is invalid, carries the reason and keeps the empty default control id |
| Text.Split | src/HL7EndpointMirror.Functions/Parsers/Hl7Parser.cs:19-20 | splitting always yields at least one piece, and no piece holds a separator |
| Text.RemoveEmpty | src/HL7EndpointMirror.Functions/Parsers/Hl7Parser.cs:20 | every kept piece is non-empty and one of the pieces; nothing is kept exactly when every piece is empty |
| Text.RemoveEmptyFirst | src/HL7EndpointMirror.Functions/Parsers/Hl7Parser.cs:20-21 | the first kept piece is a piece that only empty pieces precede |
| Text.RemoveEmptyAppend | src/HL7EndpointMirror.Functions/Parsers/Hl7Parser.cs:20 | dropping empty pieces from two lists joined end to end gives the two results joined in the same order |
| Text.SplitAllEmpty | src/HL7EndpointMirror.Functions/Parsers/Hl7Parser.cs:19-20 | every piece of a split is empty exactly when every character is a separator |
| Text.JoinLength | src/HL7EndpointMirror.Functions/Services/AckGeneratorService.cs:27-30 | a join is as long as its pieces together plus one separator between each two |
| Text.SplitJoin | src/HL7EndpointMirror.Functions/Services/AckGeneratorService.cs:27-30 | splitting a join of separator-free pieces on the separator gives back the pieces |
| Text.JoinSplit | src/HL7EndpointMirror.Functions/Parsers/Hl7Parser.cs:26 | joining the pieces of a split with the separator gives back the string |
| Text.Trim | src/HL7EndpointMirror.Functions/Parsers/Hl7Parser.cs:32 | the trim is empty exactly when the string is blank; otherwise it neither starts nor ends with white space, and all its characters come from the string |
| Text.TrimKeepsMiddle | src/HL7EndpointMirror.Functions/Parsers/Hl7Parser.cs:32 | the trim is a contiguous slice of the string, and everything before and after that slice is white space |
| Text.TrimPadded | src/HL7EndpointMirror.Functions/Parsers/Hl7Parser.cs:32 | white space around a text that starts and ends with a non-white character is removed, and the text is kept whole |
| Text.TryParseInt32 | src/HL7EndpointMirror.Functions/Services/ChaosService.cs:44-45 | a parsed value lies in the 32-bit signed range |
| Text.TryParseSigned | src/HL7EndpointMirror.Functions/Services/ChaosService.cs:44-45 | white space, then an optional `+` or `-`, then decimal digits, then white space, parses to the signed value of the digits when it lies in the 32-bit range, and does not parse otherwise |
| Text.TryParseOnlySigned | src/HL7EndpointMirror.Functions/Services/ChaosService.cs:44-45 | text parses only if it is white space, at most one `+` or `-`, one or more digits, then white space; so "503 Service Unavailable", "5.0", "0x1F" and "1,000" do not parse |
| Text.TryParseNatToString | src/HL7EndpointMirror.Functions/Services/ChaosService.cs:44-45 | every non-negative 32-bit number written in decimal parses back to itself |
| Text.TryParseNeedsDigit | src/HL7EndpointMirror.Functions/Services/ChaosService.cs:44-45 | text without a digit does not parse |
| Text.StartsWithIgnoreCaseUpper | src/HL7EndpointMirror.Functions/Parsers/Hl7Parser.cs:23 | a string starts with a prefix, ignoring case, exactly when its first characters upper-case to the upper-cased prefix |
| Text.StartsWithIgnoreCaseAnyCase | src/HL7EndpointMirror.Functions/Functions/Hl7MessageFunction.cs:140-141 | a string that begins with the prefix, as written or upper-cased, starts with it ignoring case, whatever follows |
| Hl7Parser.FirstSegment | src/HL7EndpointMirror.Functions/Parsers/Hl7Parser.cs:19-21 | the first segment, when there is one, is non-empty and holds no line break |
| Hl7Parser.FirstSegmentIsFirst | src/HL7EndpointMirror.Functions/Parsers/Hl7Parser.cs:19-21 | there is no first segment exactly when the message is nothing but line breaks; otherwise it is a piece between line breaks that only empty pieces precede |
| Hl7Parser.Parse | src/HL7EndpointMirror.Functions/Parsers/Hl7Parser.cs:13-38 | a result is valid exactly when it has no reason. Null or blank input fails with "Message body is empty.". A success has a non-empty control id with no white space at either end. A failure has a non-empty reason and an empty control id |
| Hl7Parser.ParseOutcomes | src/HL7EndpointMirror.Functions/Parsers/Hl7Parser.cs:19-37 | a non-blank message whose first segment does not start with MSH fails with "Message does not begin with an MSH segment."; one whose MSH-10 is blank fails with "MSH.10 (MessageControlId) is empty."; a success comes from an MSH first segment with more than 9 fields, and its id is field 9 trimmed |
| Hl7Parser.ParseRejectsOtherSegment | src/HL7EndpointMirror.Functions/Parsers/Hl7Parser.cs:23-24 | a message without line breaks whose first character is neither white space nor `M` or `m` fails with the no-MSH reason |
| Hl7Parser.ParseRejectsPidSegment | tests/HL7EndpointMirror.Tests/Parsers/Hl7ParserTests.cs:86-95 | the message "PID\|1\|\|PAT001^^^LAB^MR" fails with the no-MSH reason, which contains "MSH" |
| Hl7Parser.ParsedControlIdShape | src/HL7EndpointMirror.Functions/Parsers/Hl7Parser.cs:19-37 | a parsed control id holds no `\|`, `\r` or `\n` |
| Hl7Parser.LineEndingsEquivalent | src/HL7EndpointMirror.Functions/Parsers/Hl7Parser.cs:19-21 | ending the first segment with `\r`, `\n` or `\r\n` gives the same result |
| Hl7Parser.LineBreakRunsEquivalent | src/HL7EndpointMirror.Functions/Parsers/Hl7Parser.cs:19-21 | any two runs of line breaks after the first segment give the same result |
| Hl7Parser.LaterSegmentsIgnored | src/HL7EndpointMirror.Functions/Parsers/Hl7Parser.cs:19-21 | for a first segment that is not blank, what follows it never changes the result (a blank first segment makes the whole message non-blank, so it fails for a missing MSH rather than as empty) |
| Hl7Parser.ParseFindsControlId | src/HL7EndpointMirror.Functions/Parsers/Hl7Parser.cs:26-37 | an MSH first segment with a non-blank field 9 yields that field, trimmed |
| Hl7Parser.ParseReportsFieldCount | src/HL7EndpointMirror.Functions/Parsers/Hl7Parser.cs:28-30 | an MSH segment with at most 9 fields fails with a reason giving the field count and naming MSH.10 |
| Hl7Parser.FailureReasonsNameMsh | src/HL7EndpointMirror.Functions/Parsers/Hl7Parser.cs:23-35 | every failure of a non-blank message has a reason that contains "MSH" |
| Hl7Parser.ParseAssembledMessage | src/HL7EndpointMirror.Functions/Parsers/Hl7Parser.cs:19-37 | a message whose first segment is MSH fields joined with `\|` parses to field 9, trimmed; it fails with the MSH.10 reason when that field is blank |
| Hl7Parser.ParseExampleMessage | tests/HL7EndpointMirror.Tests/Parsers/Hl7ParserTests.cs:124 | the test message with control id ALPHA123 parses to ALPHA123 |
| AckGenerator.FormatTimestamp | src/HL7EndpointMirror.Functions/Services/AckGeneratorService.cs:21 | the timestamp is 14 decimal digits |
| AckGenerator.TimestampRoundTrip | src/HL7EndpointMirror.Functions/Services/AckGeneratorService.cs:21 | the yyyy, MM, dd, HH, mm and ss slices of the timestamp read back as the instant's fields |
| AckGenerator.GetAckMessage | src/HL7EndpointMirror.Functions/Services/AckGeneratorService.cs:33-39 | AA, AE and AR each get their own text, which identifies the code again; every other code, and only those, gets "Unknown" |
| AckGenerator.GenerateAck | src/HL7EndpointMirror.Functions/Services/AckGeneratorService.cs:16-31 | the call throws exactly when the control id or the code is null or white space, and the exception names the first offending argument |
| AckGenerator.HeaderSegmentFields | src/HL7EndpointMirror.Functions/Services/AckGeneratorService.cs:9-14 | the MSH segment splits into MSH, `^~\&`, MIRROR, TEST, GLS, LAB, the timestamp, an empty field, ACK, ACK plus the timestamp, P and 2.4 |
| AckGenerator.AckSegments | src/HL7EndpointMirror.Functions/Services/AckGeneratorService.cs:27-30 | when neither argument holds `\r`, the ACK is exactly two segments, MSH then MSA |
| AckGenerator.StatusSegmentFields | src/HL7EndpointMirror.Functions/Services/AckGeneratorService.cs:29 | the MSA segment splits into MSA, the code, the control id verbatim and the code's text |
| AckGenerator.AckStatusFields | src/HL7EndpointMirror.Functions/Services/AckGeneratorService.cs:27-30 | in the ACK, segment 2 reads back as MSA, the code, the control id and the code's text |
| AckGenerator.AckEchoesParsedControlId | src/HL7EndpointMirror.Functions/Parsers/Hl7Parser.cs:32-37 | any control id the parser returns comes back verbatim as MSA-2 of the ACK for it |
| AckGenerator.ParseGeneratedAck | src/HL7EndpointMirror.Functions/Services/AckGeneratorService.cs:21-30 | a generated ACK parses as a valid message whose control id is ACK followed by the timestamp |
| ChaosService.RandomSource.Next | src/HL7EndpointMirror.Functions/Services/RandomProvider.cs:7-8 | the value drawn lies in the half-open range and is appended to the log of draws |
| ChaosService.GetDelayMs | src/HL7EndpointMirror.Functions/Services/ChaosService.cs:40-43 | the delay is the configured one when latency is on and 0 otherwise; a configuration whose delay is in range yields a delay in 0..30000 |
| ChaosService.ParseStatusCode | src/HL7EndpointMirror.Functions/Services/ChaosService.cs:44-45 | the status is the error type parsed as a 32-bit integer, or 500 if it does not parse; a null error type or one without a digit gives 500; the status is always a 32-bit value |
| ChaosService.StatusCodeOfSignedText | src/HL7EndpointMirror.Functions/Services/ChaosService.cs:44-45 | an error type of white space, an optional sign, digits and white space gives its signed value when that fits 32 bits, and 500 when it does not (so "2147483648" gives 500) |
| ChaosService.MalformedErrorTypeGives500 | src/HL7EndpointMirror.Functions/Services/ChaosService.cs:44-45 | an error type not of the form white space, optional sign, digits, white space gives status 500 |
| ChaosService.Evaluate | src/HL7EndpointMirror.Functions/Services/ChaosService.cs:14-43 | the decision fails exactly when chaos is on and the roll is below the rate. A failure carries the parsed status. A non-failure has status 200. On every branch the delay is the latency delay when latency is on, else 0 |
| ChaosService.EvaluateAsync | src/HL7EndpointMirror.Functions/Services/ChaosService.cs:14-38 | chaos off: nothing is drawn, and the decision is a pass with the latency delay. Chaos on: exactly one value in 0..99 is drawn, and the decision is `Evaluate` of it |
| ChaosService.DisabledAlwaysPasses | src/HL7EndpointMirror.Functions/Services/ChaosService.cs:17-21 | with chaos off the decision passes with status 200, whatever the roll |
| ChaosService.RollBoundary | src/HL7EndpointMirror.Functions/Services/ChaosService.cs:23-26 | a roll equal to the rate passes; rate 0 never fails; rate 100 fails every roll in 0..99 |
| ChaosService.FailingRollsMatchRate | src/HL7EndpointMirror.Functions/Services/ChaosService.cs:23-26 | of the hundred possible rolls, exactly as many fail as the rate percent |
| ChaosService.StatusCodeFromErrorType | tests/HL7EndpointMirror.Tests/Services/ChaosServiceTests.cs:134-170 | a decimal error type up to 2^31-1 gives that status; digit-free or null gives 500 |
| ChaosService.FullRateFailsWithConfiguredStatus | tests/HL7EndpointMirror.Tests/Services/ChaosServiceTests.cs:201-218 | at rate 100 with error type "503" and latency 1000 ms on, every roll gives a failure with status 503 and a 1000 ms delay |
| ConfigStore.InMemoryChaosConfigStore.constructor | src/HL7EndpointMirror.Functions/Services/InMemoryChaosConfigStore.cs:11-15 | the store starts out holding the seed |
| ConfigStore.InMemoryChaosConfigStore.GetAsync | src/HL7EndpointMirror.Functions/Services/InMemoryChaosConfigStore.cs:17-18 | a read returns the stored configuration and changes nothing |
| ConfigStore.InMemoryChaosConfigStore.SaveAsync | src/HL7EndpointMirror.Functions/Services/InMemoryChaosConfigStore.cs:20-23 | a save replaces the stored configuration with exactly the one given |
| ConfigStore.FreshStoreReturnsSeed | tests/HL7EndpointMirror.Tests/Services/ChaosConfigStoreTests.cs:18-28 | read straight after construction, the store returns the seed |
| ConfigStore.SaveTwiceKeepsLast | tests/HL7EndpointMirror.Tests/Services/ChaosConfigStoreTests.cs:43-53 | after two saves, a read returns the later configuration, and so does a second read |
| ConfigStore.SaveKeepsInvalidConfig | src/HL7EndpointMirror.Functions/Services/InMemoryChaosConfigStore.cs:20-23 | the store keeps a configuration that breaks its constraints, because it does no validation |
| ChaosConfigFunction.ValidationErrors | src/HL7EndpointMirror.Functions/Functions/ChaosConfigFunction.cs:105-119 | each message is present exactly when its constraint fails. The list is empty exactly when the configuration is valid. The messages keep the order rate, error type, delay |
| ChaosConfigFunction.Validate | src/HL7EndpointMirror.Functions/Functions/ChaosConfigFunction.cs:105-119 | the messages appended one check at a time are exactly `ValidationErrors` |
| ChaosConfigFunction.OutOfRangeRateReportedAlone | src/HL7EndpointMirror.Functions/Functions/ChaosConfigFunction.cs:109-110 | rate 150 on a default configuration yields the rate message and no other |
| ChaosConfigFunction.AllChecksReported | src/HL7EndpointMirror.Functions/Functions/ChaosConfigFunction.cs:105-119 | the checks are independent: failing all three yields all three messages, in check order |
| ChaosConfigFunction.ValidationCoversAnnotations | src/HL7EndpointMirror.Functions/Functions/ChaosConfigFunction.cs:115-116 | what passes this validation also passes the annotations; a bad nested delay alone is caught only here |
| ChaosConfigFunction.NonNumericErrorTypeAccepted | src/HL7EndpointMirror.Functions/Functions/ChaosConfigFunction.cs:112-113 | the error type only has to be present: "timeout" passes validation and then yields status 500 in a failure |
| ChaosConfigFunction.ErrorResponse | src/HL7EndpointMirror.Functions/Functions/ChaosConfigFunction.cs:132-142 | an error response is JSON with the given status and message |
| ChaosConfigFunction.ChaosConfigFunction.GetChaosConfig | src/HL7EndpointMirror.Functions/Functions/ChaosConfigFunction.cs:43-44 | GET answers 200 with the stored configuration and does not write the store |
| ChaosConfigFunction.ChaosConfigFunction.UpdateChaosConfig | src/HL7EndpointMirror.Functions/Functions/ChaosConfigFunction.cs:50-101 | each of these answers 400 with its own message and leaves the store as it was: a blank body, invalid JSON, a null document, validation errors (listed in the answer). Otherwise the configuration is stored and echoed with 200. A 200 happens exactly for a valid configuration, so a store holding a valid configuration keeps holding one |
| ChaosConfigFunction.UpdateThenGet | src/HL7EndpointMirror.Functions/Functions/ChaosConfigFunction.cs:43-101 | a GET after a PUT returns what the PUT stored if it answered 200, else the earlier configuration |
| Hl7MessageFunction.AuditRecord.ChaosTypeText | src/HL7EndpointMirror.Functions/Functions/Hl7MessageFunction.cs:160 | a missing chaos type is logged as "none" |
| Hl7MessageFunction.ErrorResponse | src/HL7EndpointMirror.Functions/Functions/Hl7MessageFunction.cs:176-185 | an error response has the given status, the JSON content type and a body containing the message |
| Hl7MessageFunction.Hl7Response | src/HL7EndpointMirror.Functions/Functions/Hl7MessageFunction.cs:165-174 | an HL7 response has the given status, the HL7 content type and the given body |
| Hl7MessageFunction.Handle | src/HL7EndpointMirror.Functions/Functions/Hl7MessageFunction.cs:41-131 | a wrong or missing content type gives 415 with a JSON error and no effects. A blank body gives 400 with a JSON error and no effects. A request that passes both checks leaves exactly one audit record, last, with at most a delay before it |
| Hl7MessageFunction.Rejected | src/HL7EndpointMirror.Functions/Functions/Hl7MessageFunction.cs:70-83 | the parse-failure path leaves exactly one audit record |
| Hl7MessageFunction.Decided | src/HL7EndpointMirror.Functions/Functions/Hl7MessageFunction.cs:88-130 | past the parse, the request leaves one audit record, with at most a delay before it |
| Hl7MessageFunction.ContentTypeGate | src/HL7EndpointMirror.Functions/Functions/Hl7MessageFunction.cs:135-142 | a missing header is refused; a list of values passes exactly when one of its parts does |
| Hl7MessageFunction.ContentTypeValueGate | src/HL7EndpointMirror.Functions/Functions/Hl7MessageFunction.cs:140-141 | a single value passes exactly when it starts with application/hl7-v2 ignoring case: the media type with any parameters passes, lower- or upper-case, and a shorter value never does |
| Hl7MessageFunction.ContentTypeExamples | src/HL7EndpointMirror.Functions/Functions/Hl7MessageFunction.cs:135-142 | a missing header, no values and application/json are refused. application/hl7-v2 is accepted, and so is a list whose second value is a mixed-case application/hl7-v2 with a charset parameter |
| Hl7MessageFunction.ParseFailureOutcome | src/HL7EndpointMirror.Functions/Functions/Hl7MessageFunction.cs:70-83 | a message that does not parse gets 400 with an HL7 body whose MSA reads AR, UNKNOWN, Application reject. It is audited once as UNKNOWN, 400, no chaos, no chaos type, AR |
| Hl7MessageFunction.ChaosFailureOutcome | src/HL7EndpointMirror.Functions/Functions/Hl7MessageFunction.cs:88-115 | an injected failure answers with the parsed error status, no content type and no body. It is audited with that status, chaos applied, the configured error type and CHAOS; the delay, if any, comes first |
| Hl7MessageFunction.AcceptedOutcome | src/HL7EndpointMirror.Functions/Functions/Hl7MessageFunction.cs:118-130 | an accepted message gets 200 with an HL7 ACK whose MSA-1 is AA and MSA-2 the parsed control id. It is audited with 200, no chaos and AA; the delay, if any, comes first |
| Hl7MessageFunction.RollIrrelevantUnlessDrawn | src/HL7EndpointMirror.Functions/Functions/Hl7MessageFunction.cs:50-88 | the roll changes the outcome only for a parsed message with chaos on |
| Hl7MessageFunction.DecidedAcknowledges | src/HL7EndpointMirror.Functions/Functions/Hl7MessageFunction.cs:117-130 | a decision that does not fail gives 200 with an HL7 ACK whose MSA-1 is AA and MSA-2 the control id, an AA audit record, and the delay first when there is one |
| Hl7MessageFunction.DecidedDelay | src/HL7EndpointMirror.Functions/Functions/Hl7MessageFunction.cs:91-98 | past the parse, a delay happens exactly when the decision's delay is positive; it is that delay, and it comes first |
| Hl7MessageFunction.ChaosOutcomeWith | src/HL7EndpointMirror.Functions/Functions/Hl7MessageFunction.cs:88-115 | a failing decision with a positive delay gives the delay, then a CHAOS audit record, and a bodyless response with the decision's status |
| Hl7MessageFunction.DelayOnlyAfterParse | src/HL7EndpointMirror.Functions/Functions/Hl7MessageFunction.cs:88-98 | a delay happens exactly for a parsed message with a positive latency delay; it is that delay, and it is the first effect |
| Hl7MessageFunction.BodylessExactlyOnChaos | src/HL7EndpointMirror.Functions/Functions/Hl7MessageFunction.cs:113-114 | a response has no body exactly when it is an injected failure |
| Hl7MessageFunction.AuditOmitsBody | src/HL7EndpointMirror.Functions/Functions/Hl7MessageFunction.cs:144-163 | the audit record carries the message id and either the parsed control id or UNKNOWN; a parsed control id is never the raw body |
| Hl7MessageFunction.ExampleAccepted | src/HL7EndpointMirror.Functions/Functions/Hl7MessageFunction.cs:118-130 | with the default configuration, the ALPHA123 test message gets 200, its ACK echoes ALPHA123, and the only effect is the AA audit record |
| Hl7MessageFunction.ExampleChaosFailure | src/HL7EndpointMirror.Functions/Functions/Hl7MessageFunction.cs:88-115 | at rate 100, error type 503 and a 1000 ms latency, the test message waits 1000 ms, then gets 503 with no body and a CHAOS audit record |
| Hl7MessageFunction.Hl7MessageFunction.RunAsync | src/HL7EndpointMirror.Functions/Functions/Hl7MessageFunction.cs:41-131 | the random provider is consulted, once, exactly when the message parsed and chaos is on. The outcome is `Handle` with the value drawn, or with any roll when nothing is drawn |

## Left out

- The .NET white-space set and case mapping are reduced to ASCII: tab, line feed, vertical tab, form feed, carriage return and space are white space, and only a-z are upper-cased. Culture-specific and other Unicode details of `Trim`, `IsNullOrWhiteSpace`, `StartsWith` and `int.TryParse` are not modelled. Neither are `int.TryParse`'s thousands separators and other non-default styles. The timestamp is formatted without a format provider, so the source writes the year in the current culture's calendar (2568 under the Thai Buddhist calendar); `FormatTimestamp` always writes the Gregorian fields.
- `int.TryParse` also accepts trailing `\0` characters; the model does not, so an error type such as "503\0" gives 500 in the model and 503 in the source.
- Integers are unbounded. The 32-bit range is checked only where the source's behaviour depends on it: `int.TryParse` rejects out-of-range digits, which makes the status 500. The `(HttpStatusCode)` cast of an arbitrary integer is kept as the integer.
- JSON serialisation and deserialisation are not modelled. The PUT handler gets the raw body for its blank check, plus what the deserialiser made of it: invalid JSON, `null`, or a configuration. A document with `"latencySimulation": null` would make `Validate` dereference null; the model's `ChaosConfig` always has a latency part, so that crash is not modelled.
- HTTP request and response objects, header collections and logging sinks are not modelled. A response is a status, an optional content type and an optional body. The audit log entry is a datatype. The warning and information log lines other than the audit record are left out.
- `Task`, `async` and `Task.Delay` are not modelled; a delay is an effect in the returned trace. `Stopwatch` readings, `DateTime.UtcNow` and the per-request message id are parameters.
- ChaosService.RandomSource.Next: the model promises only a value in range, not `Random.Shared`'s distribution. `FailingRollsMatchRate` counts rolls instead of stating a probability.
- Concurrent requests and concurrent access to the store are not modelled.
- `ChaosConfig` is a reference type in C#. The store keeps the very object it was given, so a caller that mutated it later would change the stored configuration. The model treats configurations as values.
- Host start-up, dependency injection, the health endpoint, the correlation middleware and the template function are not modelled. They hold no logic of the core.
