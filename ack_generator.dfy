/**
 * Synthesis of the HL7 version 2.4 acknowledgment (ACK) message: an MSH
 * header segment and an MSA segment carrying the acknowledgment code of
 * HL7 table 0008 (AA, AE, AR) and the control id being acknowledged.
 */
module AckGenerator {
  import opened Wrappers
  import opened Text
  import Models
  import Hl7Parser

  const SendingApplication: string := "MIRROR"
  const SendingFacility: string := "TEST"
  const ReceivingApplication: string := "GLS"
  const ReceivingFacility: string := "LAB"
  const ProcessingId: string := "P"
  const Version: string := "2.4"
  /** MSH-2: component, repetition, escape and sub-component separators. */
  const EncodingCharacters: string := "^~\\&"
  const AckMessageType: string := "ACK"

  // ---------------------------------------------------------------------------
  // Timestamp

  /** A UTC instant, to the second, as `DateTime` holds it. */
  datatype DateTime = DateTime(year: int, month: int, day: int, hour: int, minute: int, second: int)
  {
    predicate Valid() {
      && 1 <= year <= 9999 && 1 <= month <= 12 && 1 <= day <= 31
      && 0 <= hour < 24 && 0 <= minute < 60 && 0 <= second < 60
    }
  }

  /** `ToString("yyyyMMddHHmmss")`. */
  function FormatTimestamp(t: DateTime): (s: string)
    requires t.Valid()
    ensures |s| == 14 && AllDigits(s)
  {
    NatToStringLength(t.year, 4);
    NatToStringLength(t.month, 2);
    NatToStringLength(t.day, 2);
    NatToStringLength(t.hour, 2);
    NatToStringLength(t.minute, 2);
    NatToStringLength(t.second, 2);
    ZeroPad(t.year, 4) + ZeroPad(t.month, 2) + ZeroPad(t.day, 2)
    + ZeroPad(t.hour, 2) + ZeroPad(t.minute, 2) + ZeroPad(t.second, 2)
  }

  /** Leading zeros do not change the value of a digit string. */
  lemma {:induction false} LeadingZerosValue(zeros: nat, digits: string)
    requires AllDigits(digits)
    ensures AllDigits(seq(zeros, _ => '0') + digits)
    ensures DigitsValue(seq(zeros, _ => '0') + digits) == DigitsValue(digits)
    decreases |digits|
  {
    var z := seq(zeros, _ => '0');
    var s := z + digits;
    if digits == [] {
      assert s == z;
      ZerosValue(zeros);
    } else {
      assert s[..|s| - 1] == z + digits[..|digits| - 1];
      LeadingZerosValue(zeros, digits[..|digits| - 1]);
    }
  }

  lemma {:induction false} ZerosValue(zeros: nat)
    ensures AllDigits(seq(zeros, _ => '0'))
    ensures DigitsValue(seq(zeros, _ => '0')) == 0
  {
    if zeros > 0 {
      assert seq(zeros, _ => '0')[..zeros - 1] == seq(zeros - 1, _ => '0');
      ZerosValue(zeros - 1);
    }
  }

  lemma ZeroPadValue(n: nat, width: nat)
    ensures DigitsValue(ZeroPad(n, width)) == n
  {
    NatToStringRoundTrip(n);
    var digits := NatToString(n);
    if |digits| < width {
      LeadingZerosValue(width - |digits|, digits);
    }
  }

  /** Reading the fixed-width fields of the timestamp back gives the instant it was written from. */
  lemma TimestampRoundTrip(t: DateTime)
    requires t.Valid()
    ensures var s := FormatTimestamp(t);
      && DigitsValue(s[0..4]) == t.year && DigitsValue(s[4..6]) == t.month
      && DigitsValue(s[6..8]) == t.day && DigitsValue(s[8..10]) == t.hour
      && DigitsValue(s[10..12]) == t.minute && DigitsValue(s[12..14]) == t.second
  {
    var s := FormatTimestamp(t);
    var front := ZeroPad(t.year, 4) + ZeroPad(t.month, 2) + ZeroPad(t.day, 2);
    var back := ZeroPad(t.hour, 2) + ZeroPad(t.minute, 2) + ZeroPad(t.second, 2);
    PaddedPartsRead(t.year, t.month, t.day, 4);
    PaddedPartsRead(t.hour, t.minute, t.second, 2);
    assert s == front + back && |front| == 8 && |back| == 6;
    PartsRead(front, back, []);
    assert s[0..4] == front[0..4] && s[4..6] == front[4..6] && s[6..8] == front[6..8];
    assert s[8..10] == back[0..2] && s[10..12] == back[2..4] && s[12..14] == back[4..6];
  }

  /** Three zero-padded numbers, the first `width` wide and the others 2, read back from their slices. */
  lemma PaddedPartsRead(a: nat, b: nat, c: nat, width: nat)
    requires 1 <= width && a < Pow10(width) && b < 100 && c < 100
    ensures var s := ZeroPad(a, width) + ZeroPad(b, 2) + ZeroPad(c, 2);
      && |s| == width + 4
      && DigitsValue(s[0..width]) == a
      && DigitsValue(s[width..width + 2]) == b
      && DigitsValue(s[width + 2..width + 4]) == c
  {
    NatToStringLength(a, width);
    NatToStringLength(b, 2);
    NatToStringLength(c, 2);
    PartsRead(ZeroPad(a, width), ZeroPad(b, 2), ZeroPad(c, 2));
    ZeroPadValue(a, width);
    ZeroPadValue(b, 2);
    ZeroPadValue(c, 2);
  }

  /** The three parts of a concatenation are read back by slicing at their lengths. */
  lemma PartsRead(x: string, y: string, z: string)
    ensures var s := x + y + z;
      s[..|x|] == x && s[|x|..|x| + |y|] == y && s[|x| + |y|..] == z
  {
    var s := x + y + z;
    assert s[..|x|] == x;
    assert s[|x|..|x| + |y|] == y;
  }

  // ---------------------------------------------------------------------------
  // Acknowledgment text

  /**
   * The MSA-3 text for an acknowledgment code: each known code gets a text
   * that reads back as that code, and every other code gets "Unknown".
   */
  function GetAckMessage(ackCode: string): (text: string)
    ensures ackCode in KnownAckCodes ==> AckCodeOf(text) == NonNull(ackCode)
    ensures ackCode !in KnownAckCodes <==> text == "Unknown"
  {
    match ackCode
    case "AA" => "Message accepted"
    case "AE" => "Application error"
    case "AR" => "Application reject"
    case _ => "Unknown"
  }

  /** The codes of HL7 table 0008 that have their own text. */
  const KnownAckCodes: set<string> := {"AA", "AE", "AR"}

  /** Reads an acknowledgment code back from its MSA-3 text. */
  function AckCodeOf(text: string): Nullable<string> {
    if text == "Message accepted" then NonNull("AA")
    else if text == "Application error" then NonNull("AE")
    else if text == "Application reject" then NonNull("AR")
    else Null
  }

  // ---------------------------------------------------------------------------
  // The ACK message

  /** The exception `ArgumentException.ThrowIfNullOrWhiteSpace` raises. */
  datatype ArgumentError =
    | ArgumentNull(paramName: string)       // `ArgumentNullException`
    | ArgumentBlank(paramName: string)      // `ArgumentException`, empty or white space

  /** The fields of the MSH header segment of an ACK sent at `timestamp`. */
  function HeaderFields(timestamp: string): seq<string> {
    [ "MSH", EncodingCharacters, SendingApplication, SendingFacility,
      ReceivingApplication, ReceivingFacility, timestamp, "",
      AckMessageType, AckMessageType + timestamp, ProcessingId, Version ]
  }

  /** The fields of the MSA segment. */
  function StatusFields(ackCode: string, messageControlId: string): seq<string> {
    ["MSA", ackCode, messageControlId, GetAckMessage(ackCode)]
  }

  /**
   * `AckGeneratorService.GenerateAck` at the instant `now`: the header and
   * status segments, each its fields joined with '|', joined with '\r'.
   */
  function GenerateAck(messageControlId: Nullable<string>, ackCode: Nullable<string>, now: DateTime)
    : (r: Outcome<string, ArgumentError>)
    requires now.Valid()
    ensures r.Throws? <==> IsNullOrWhiteSpace(messageControlId) || IsNullOrWhiteSpace(ackCode)
    ensures r.Throws? ==>
      r.exception.paramName == if IsNullOrWhiteSpace(messageControlId) then "messageControlId" else "ackCode"
  {
    if messageControlId.Null? then Throws(ArgumentNull("messageControlId"))
    else if IsBlank(messageControlId.value) then Throws(ArgumentBlank("messageControlId"))
    else if ackCode.Null? then Throws(ArgumentNull("ackCode"))
    else if IsBlank(ackCode.value) then Throws(ArgumentBlank("ackCode"))
    else
      var timestamp := FormatTimestamp(now);
      Returns(Join([Join(HeaderFields(timestamp), "|"),
                    Join(StatusFields(ackCode.value, messageControlId.value), "|")], "\r"))
  }

  // ---------------------------------------------------------------------------
  // Structure of a generated ACK

  lemma HeaderFieldsAvoid(timestamp: string, chars: set<char>)
    requires AllDigits(timestamp) && chars <= {'|', '\r', '\n'}
    ensures forall i | 0 <= i < |HeaderFields(timestamp)| :: Avoids(HeaderFields(timestamp)[i], chars)
  {
    var f := HeaderFields(timestamp);
    assert f[9] == "ACK" + timestamp;
  }

  /** The MSH segment splits on '|' into its twelve fields; MSH-7 is the timestamp and MSH-10 "ACK" plus the timestamp. */
  lemma HeaderSegmentFields(timestamp: string)
    requires AllDigits(timestamp)
    ensures var fields := Split(Join(HeaderFields(timestamp), "|"), {'|'});
      && fields == HeaderFields(timestamp)
      && fields[0] == "MSH" && fields[1] == "^~\\&" && fields[2] == "MIRROR" && fields[3] == "TEST"
      && fields[4] == "GLS" && fields[5] == "LAB" && fields[6] == timestamp
      && fields[8] == "ACK" && fields[9] == "ACK" + timestamp
      && fields[10] == "P" && fields[11] == "2.4"
  {
    HeaderFieldsAvoid(timestamp, {'|'});
    SplitJoin(HeaderFields(timestamp), '|');
  }

  /**
   * When neither argument holds a carriage return the ACK is exactly two
   * segments, the MSH header then the MSA status segment.
   */
  lemma AckSegments(messageControlId: string, ackCode: string, now: DateTime)
    requires now.Valid()
    requires !IsBlank(messageControlId) && !IsBlank(ackCode)
    requires Avoids(messageControlId, {'\r'}) && Avoids(ackCode, {'\r'})
    ensures var ack := GenerateAck(NonNull(messageControlId), NonNull(ackCode), now);
      var timestamp := FormatTimestamp(now);
      && ack.Returns?
      && Split(ack.value, {'\r'}) ==
         [Join(HeaderFields(timestamp), "|"), Join(StatusFields(ackCode, messageControlId), "|")]
  {
    var timestamp := FormatTimestamp(now);
    var header := Join(HeaderFields(timestamp), "|");
    var status := Join(StatusFields(ackCode, messageControlId), "|");
    HeaderFieldsAvoid(timestamp, {'\r'});
    JoinAvoids(HeaderFields(timestamp), '|', {'\r'});
    JoinAvoids(StatusFields(ackCode, messageControlId), '|', {'\r'});
    SplitJoin([header, status], '\r');
  }

  /** MSA-1 is the code, MSA-2 the control id verbatim, MSA-3 the code's text. */
  lemma StatusSegmentFields(messageControlId: string, ackCode: string)
    requires Avoids(messageControlId, {'|'}) && Avoids(ackCode, {'|'})
    ensures Split(Join(StatusFields(ackCode, messageControlId), "|"), {'|'}) ==
      ["MSA", ackCode, messageControlId, GetAckMessage(ackCode)]
  {
    SplitJoin(StatusFields(ackCode, messageControlId), '|');
  }

  /** Split the ACK into segments, then segment `segment` into fields, and take field `field`. */
  function AckField(ack: string, segment: nat, field: nat): Nullable<string> {
    var segments := Split(ack, {'\r'});
    if segment < |segments| then
      var fields := Split(segments[segment], {'|'});
      if field < |fields| then NonNull(fields[field]) else Null
    else Null
  }

  /**
   * Any control id the parser hands out survives the round trip: in the ACK
   * for it, whatever the code, field 2 of segment 2 is that id exactly.
   */
  lemma AckEchoesParsedControlId(message: Nullable<string>, ackCode: string, now: DateTime)
    requires now.Valid()
    requires Hl7Parser.Parse(message).isValid
    requires !IsBlank(ackCode) && Avoids(ackCode, {'|', '\r'})
    ensures var id := Hl7Parser.Parse(message).messageControlId;
      var ack := GenerateAck(NonNull(id), NonNull(ackCode), now);
      && ack.Returns?
      && AckField(ack.value, 1, 0) == NonNull("MSA")
      && AckField(ack.value, 1, 1) == NonNull(ackCode)
      && AckField(ack.value, 1, 2) == NonNull(id)
  {
    var id := Hl7Parser.Parse(message).messageControlId;
    Hl7Parser.ParsedControlIdShape(message);
    assert !IsBlank(id) by { assert !IsWhiteSpace(id[0]); }
    AckStatusFields(id, ackCode, now);
  }

  /**
   * In the ACK for a control id and code free of separators, the MSA
   * segment reads back as the code, the control id and the code's text.
   */
  lemma AckStatusFields(messageControlId: string, ackCode: string, now: DateTime)
    requires now.Valid()
    requires !IsBlank(messageControlId) && !IsBlank(ackCode)
    requires Avoids(messageControlId, {'|', '\r'}) && Avoids(ackCode, {'|', '\r'})
    ensures var ack := GenerateAck(NonNull(messageControlId), NonNull(ackCode), now);
      && ack.Returns?
      && AckField(ack.value, 1, 0) == NonNull("MSA")
      && AckField(ack.value, 1, 1) == NonNull(ackCode)
      && AckField(ack.value, 1, 2) == NonNull(messageControlId)
      && AckField(ack.value, 1, 3) == NonNull(GetAckMessage(ackCode))
  {
    AckSegments(messageControlId, ackCode, now);
    StatusSegmentFields(messageControlId, ackCode);
  }

  /**
   * A generated ACK is itself a well-formed message to the parser, which
   * reads MSH-10, "ACK" followed by the timestamp, as its control id.
   */
  lemma ParseGeneratedAck(messageControlId: string, ackCode: string, now: DateTime)
    requires now.Valid()
    requires !IsBlank(messageControlId) && !IsBlank(ackCode)
    ensures var ack := GenerateAck(NonNull(messageControlId), NonNull(ackCode), now);
      && ack.Returns?
      && Hl7Parser.Parse(NonNull(ack.value)) == Models.Success("ACK" + FormatTimestamp(now))
  {
    var timestamp := FormatTimestamp(now);
    var header := Join(HeaderFields(timestamp), "|");
    var status := Join(StatusFields(ackCode, messageControlId), "|");
    assert Join([header, status], "\r") == header + "\r" + status;
    ParseHeaderSegment(timestamp, status);
  }

  /** A message opening with the ACK header stamped `timestamp` parses to "ACK" followed by the timestamp. */
  lemma ParseHeaderSegment(timestamp: string, rest: string)
    requires timestamp != [] && AllDigits(timestamp)
    ensures Hl7Parser.Parse(NonNull(Join(HeaderFields(timestamp), "|") + "\r" + rest)) ==
      Models.Success("ACK" + timestamp)
  {
    var fields := HeaderFields(timestamp);
    HeaderFieldsAvoid(timestamp, {'|', '\r', '\n'});
    Hl7Parser.ParseAssembledMessage(fields, "\r", rest);
    var id := "ACK" + timestamp;
    assert fields[Hl7Parser.MessageControlIdIndex] == id;
    assert IsDigit(timestamp[|timestamp| - 1]);
    assert !IsWhiteSpace(id[0]) && !IsWhiteSpace(id[|id| - 1]);
    TrimUnchanged(id);
  }
}
