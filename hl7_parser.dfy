/**
 * Extraction of the message control id (MSH-10) from the MSH segment that
 * opens every HL7 version 2 message.
 */
module Hl7Parser {
  import opened Wrappers
  import opened Text
  import opened Models

  /** MSH-1 is the field separator itself, so MSH-10 is at index 9 after splitting on it. */
  const MessageControlIdIndex: nat := 9
  const MshPrefix: string := "MSH"
  const FieldSeparator: char := '|'
  /** Segments may end in a carriage return, a line feed or both. */
  const LineBreaks: set<char> := {'\r', '\n'}

  const EmptyReason: string := "Message body is empty."
  const NoMshReason: string := "Message does not begin with an MSH segment."
  const EmptyControlIdReason: string := "MSH.10 (MessageControlId) is empty."

  /** The name the reasons give the control id field. */
  const ControlIdField: string := "MSH.10"

  function TooFewFieldsReason(count: nat): string {
    "MSH segment has only " + NatToString(count) + " fields; MessageControlId (" + ControlIdField + ") not present."
  }

  /** The first non-empty piece of the message split on line breaks, if any. */
  function FirstSegment(message: string): (first: Nullable<string>)
    ensures first.NonNull? ==> first.value != [] && Avoids(first.value, LineBreaks)
  {
    var segments := RemoveEmpty(Split(message, LineBreaks));
    if segments == [] then Null else NonNull(segments[0])
  }

  /**
   * There is no first segment exactly when the message holds nothing but
   * line breaks; otherwise it is a piece that only empty pieces precede.
   */
  lemma FirstSegmentIsFirst(message: string)
    ensures FirstSegment(message).Null? <==> forall i | 0 <= i < |message| :: message[i] in LineBreaks
    ensures FirstSegment(message).NonNull? ==> var pieces := Split(message, LineBreaks);
      exists k | 0 <= k < |pieces| :: pieces[k] == FirstSegment(message).value && forall j | 0 <= j < k :: pieces[j] == []
  {
    SplitAllEmpty(message, LineBreaks);
    RemoveEmptyFirst(Split(message, LineBreaks));
  }

  /** What a successful parse can hand out: non-empty, trimmed, and free of field and segment separators. */
  predicate IsControlId(id: string) {
    && id != []
    && Avoids(id, {FieldSeparator, '\r', '\n'})
    && !IsWhiteSpace(id[0]) && !IsWhiteSpace(id[|id| - 1])
  }

  /** The first segment exists and starts with "MSH", in any letter case. */
  predicate BeginsWithMsh(message: string) {
    FirstSegment(message).NonNull? && StartsWithIgnoreCase(FirstSegment(message).value, MshPrefix)
  }

  /** The fields of the first segment, split on the field separator. */
  function MshFields(message: string): (fields: seq<string>)
    requires BeginsWithMsh(message)
    ensures |fields| >= 1
  {
    Split(FirstSegment(message).value, {FieldSeparator})
  }

  /**
   * `Hl7Parser.Parse`: a blank message, a first segment other than MSH, an
   * MSH segment too short to hold MSH-10 and a blank MSH-10 are failures,
   * each with its own reason; otherwise the control id is MSH-10 trimmed.
   */
  function Parse(message: Nullable<string>): (r: Hl7ParseResult)
    ensures r.Consistent()
    ensures IsNullOrWhiteSpace(message) ==> r == Failure(EmptyReason)
    ensures r.isValid ==> var id := r.messageControlId;
      id != [] && !IsWhiteSpace(id[0]) && !IsWhiteSpace(id[|id| - 1])
    ensures !r.isValid ==> r.errorReason.NonNull? && r.errorReason.value != [] && r.messageControlId == []
  {
    if IsNullOrWhiteSpace(message) then Failure(EmptyReason)
    else
      var first := FirstSegment(message.value);
      if first.Null? || !StartsWithIgnoreCase(first.value, MshPrefix) then Failure(NoMshReason)
      else
        var fields := Split(first.value, {FieldSeparator});
        if |fields| <= MessageControlIdIndex then Failure(TooFewFieldsReason(|fields|))
        else
          var id := Trim(fields[MessageControlIdIndex]);
          if id == [] then Failure(EmptyControlIdReason) else Success(id)
  }

  /**
   * Which failure `Parse` reports, and where a control id it returns comes
   * from: a first segment other than MSH is refused with its own reason, a
   * blank MSH-10 with another, and a success is MSH-10 of an MSH segment
   * long enough to hold it, trimmed.
   */
  lemma ParseOutcomes(message: Nullable<string>)
    ensures var r := Parse(message);
      && (!IsNullOrWhiteSpace(message) && !BeginsWithMsh(message.value) ==> r == Failure(NoMshReason))
      && ((&& !IsNullOrWhiteSpace(message) && BeginsWithMsh(message.value)
           && |MshFields(message.value)| > MessageControlIdIndex
           && IsBlank(MshFields(message.value)[MessageControlIdIndex])) ==>
          r == Failure(EmptyControlIdReason))
      && (r.isValid ==>
          && message.NonNull? && BeginsWithMsh(message.value)
          && |MshFields(message.value)| > MessageControlIdIndex
          && r.messageControlId == Trim(MshFields(message.value)[MessageControlIdIndex]))
  {
  }

  /** A control id read from a message holds no field separator and no line break, so it is a whole field of one segment. */
  lemma ParsedControlIdShape(message: Nullable<string>)
    requires Parse(message).isValid
    ensures IsControlId(Parse(message).messageControlId)
  {
    var first := FirstSegment(message.value).value;
    var fields := Split(first, {FieldSeparator});
    var field := fields[MessageControlIdIndex];
    var id := Trim(field);
    forall i | 0 <= i < |id| ensures id[i] !in {FieldSeparator, '\r', '\n'} {
      var j :| 0 <= j < |field| && field[j] == id[i];
      SplitPieceIn(first, {FieldSeparator}, MessageControlIdIndex, j);
    }
  }

  // ---------------------------------------------------------------------------
  // Segment separators

  predicate IsLineBreakRun(sep: string) {
    sep != [] && forall i | 0 <= i < |sep| :: sep[i] in LineBreaks
  }

  /** Line breaks in front of the text add only empty pieces, which are dropped. */
  lemma {:induction false} LeadingBreaksDropped(breaks: string, rest: string)
    requires forall i | 0 <= i < |breaks| :: breaks[i] in LineBreaks
    ensures RemoveEmpty(Split(breaks + rest, LineBreaks)) == RemoveEmpty(Split(rest, LineBreaks))
    decreases |breaks|
  {
    if breaks != [] {
      assert breaks + rest == [] + [breaks[0]] + (breaks[1..] + rest);
      SplitAtSeparator([], breaks[0], breaks[1..] + rest, LineBreaks);
      LeadingBreaksDropped(breaks[1..], rest);
    } else {
      assert breaks + rest == rest;
    }
  }

  /** However long a run of line breaks is, it separates the same segments. */
  lemma SegmentsAroundBreakRun(seg: string, sep: string, rest: string)
    requires Avoids(seg, LineBreaks) && IsLineBreakRun(sep)
    ensures RemoveEmpty(Split(seg + sep + rest, LineBreaks)) == RemoveEmpty([seg]) + RemoveEmpty(Split(rest, LineBreaks))
  {
    assert seg + sep + rest == seg + [sep[0]] + (sep[1..] + rest);
    SplitAtSeparator(seg, sep[0], sep[1..] + rest, LineBreaks);
    RemoveEmptyAppend([seg], Split(sep[1..] + rest, LineBreaks));
    LeadingBreaksDropped(sep[1..], rest);
  }

  lemma BlankAroundBreakRun(seg: string, sep: string, rest: string)
    requires IsLineBreakRun(sep)
    ensures IsBlank(seg + sep + rest) <==> IsBlank(seg) && IsBlank(rest)
  {
    var s := seg + sep + rest;
    if IsBlank(seg) && IsBlank(rest) {
      forall i | 0 <= i < |s| ensures IsWhiteSpace(s[i]) {
        if i < |seg| { assert s[i] == seg[i]; }
        else if i < |seg| + |sep| { assert s[i] == sep[i - |seg|]; }
        else { assert s[i] == rest[i - |seg| - |sep|]; }
      }
    }
    if IsBlank(s) {
      forall i | 0 <= i < |seg| ensures IsWhiteSpace(seg[i]) { assert seg[i] == s[i]; }
      forall i | 0 <= i < |rest| ensures IsWhiteSpace(rest[i]) { assert rest[i] == s[|seg| + |sep| + i]; }
    }
  }

  /**
   * The result does not depend on how a segment is terminated: any run of
   * carriage returns and line feeds gives the same result as any other.
   */
  lemma LineBreakRunsEquivalent(seg: string, sep1: string, sep2: string, rest: string)
    requires Avoids(seg, LineBreaks) && IsLineBreakRun(sep1) && IsLineBreakRun(sep2)
    ensures Parse(NonNull(seg + sep1 + rest)) == Parse(NonNull(seg + sep2 + rest))
  {
    SegmentsAroundBreakRun(seg, sep1, rest);
    SegmentsAroundBreakRun(seg, sep2, rest);
    BlankAroundBreakRun(seg, sep1, rest);
    BlankAroundBreakRun(seg, sep2, rest);
    SameFirstSegmentSameParse(seg + sep1 + rest, seg + sep2 + rest);
  }

  /** Two non-null messages with the same first segment, both blank or both not, parse alike. */
  lemma SameFirstSegmentSameParse(m1: string, m2: string)
    requires FirstSegment(m1) == FirstSegment(m2) && (IsBlank(m1) <==> IsBlank(m2))
    ensures Parse(NonNull(m1)) == Parse(NonNull(m2))
  {
  }

  /** `\r`, `\n` and `\r\n` after a segment give identical results. */
  lemma LineEndingsEquivalent(seg: string, rest: string)
    requires Avoids(seg, LineBreaks)
    ensures Parse(NonNull(seg + "\r" + rest)) == Parse(NonNull(seg + "\n" + rest))
    ensures Parse(NonNull(seg + "\r\n" + rest)) == Parse(NonNull(seg + "\n" + rest))
  {
    LineBreakRunsEquivalent(seg, "\r", "\n", rest);
    LineBreakRunsEquivalent(seg, "\r\n", "\n", rest);
  }

  /** Only the first segment is examined: whatever follows it never changes the result. */
  lemma LaterSegmentsIgnored(seg: string, sep: string, rest: string)
    requires Avoids(seg, LineBreaks) && !IsBlank(seg) && IsLineBreakRun(sep)
    ensures Parse(NonNull(seg + sep + rest)) == Parse(NonNull(seg))
  {
    SegmentsAroundBreakRun(seg, sep, rest);
    BlankAroundBreakRun(seg, sep, rest);
    SplitWithoutSeparators(seg, LineBreaks);
    assert seg != [];
  }

  // ---------------------------------------------------------------------------
  // Results by shape of the first segment

  /** A message whose first segment starts with MSH and has a non-blank tenth field yields that field, trimmed. */
  lemma ParseFindsControlId(message: string)
    requires FirstSegment(message).NonNull?
    requires var first := FirstSegment(message).value;
      && StartsWithIgnoreCase(first, MshPrefix)
      && |Split(first, {FieldSeparator})| > MessageControlIdIndex
      && !IsBlank(Split(first, {FieldSeparator})[MessageControlIdIndex])
    ensures Parse(NonNull(message)) ==
      Success(Trim(Split(FirstSegment(message).value, {FieldSeparator})[MessageControlIdIndex]))
  {
    MshSegmentMakesNonBlank(message);
  }

  /** A message whose first segment starts with MSH is not blank. */
  lemma MshSegmentMakesNonBlank(message: string)
    requires FirstSegment(message).NonNull?
    requires StartsWithIgnoreCase(FirstSegment(message).value, MshPrefix)
    ensures !IsBlank(message)
  {
    var first := FirstSegment(message).value;
    assert first[0] in message by {
      var k :| 0 <= k < |Split(message, LineBreaks)| && Split(message, LineBreaks)[k] == first;
      SplitPieceIn(message, LineBreaks, k, 0);
    }
    assert !IsWhiteSpace(first[0]) by {
      assert AsciiUpper(first[0]) == 'M';
    }
  }

  /** A character of a piece is a character of the string that was split. */
  lemma {:induction false} SplitPieceIn(s: string, separators: set<char>, k: nat, j: nat)
    requires k < |Split(s, separators)| && j < |Split(s, separators)[k]|
    ensures Split(s, separators)[k][j] in s
    decreases |s|
  {
    if s != [] {
      var rest := Split(s[1..], separators);
      if s[0] in separators {
        assert k > 0;
        SplitPieceIn(s[1..], separators, k - 1, j);
      } else if k == 0 {
        if j > 0 { SplitPieceIn(s[1..], separators, 0, j - 1); }
      } else {
        SplitPieceIn(s[1..], separators, k, j);
      }
    }
  }

  /** Too few fields: the reason gives the field count and names MSH.10. */
  lemma ParseReportsFieldCount(message: string)
    requires FirstSegment(message).NonNull?
    requires StartsWithIgnoreCase(FirstSegment(message).value, MshPrefix)
    requires |Split(FirstSegment(message).value, {FieldSeparator})| <= MessageControlIdIndex
    ensures var count := |Split(FirstSegment(message).value, {FieldSeparator})|;
      var r := Parse(NonNull(message));
      && r == Failure(TooFewFieldsReason(count))
      && Contains(r.errorReason.value, NatToString(count))
      && Contains(r.errorReason.value, "MSH.10")
  {
    MshSegmentMakesNonBlank(message);
    TooFewFieldsReasonNames(|Split(FirstSegment(message).value, {FieldSeparator})|);
  }

  /** The too-few-fields reason gives the count and names MSH.10. */
  lemma TooFewFieldsReasonNames(count: nat)
    ensures Contains(TooFewFieldsReason(count), NatToString(count))
    ensures Contains(TooFewFieldsReason(count), "MSH.10")
  {
    var head := "MSH segment has only " + NatToString(count) + " fields; MessageControlId (";
    ContainsInfix("MSH segment has only ", NatToString(count), " fields; MessageControlId (");
    ContainsExtend(head, NatToString(count), ControlIdField);
    ContainsExtend(head + ControlIdField, NatToString(count), ") not present.");
    ContainsInfix(head, ControlIdField, ") not present.");
  }

  /** Every failure reason names the MSH segment. */
  lemma ReasonsNameMsh(count: nat)
    ensures Contains(NoMshReason, "MSH")
    ensures Contains(TooFewFieldsReason(count), "MSH")
    ensures Contains(EmptyControlIdReason, "MSH")
  {
    assert OccursAt(NoMshReason, "MSH", 31);
    assert OccursAt(TooFewFieldsReason(count), "MSH", 0);
    assert OccursAt(EmptyControlIdReason, "MSH", 0);
  }

  /** A single segment that does not begin with M or m is refused as not being MSH. */
  lemma ParseRejectsOtherSegment(seg: string)
    requires seg != [] && Avoids(seg, LineBreaks)
    requires !IsWhiteSpace(seg[0]) && AsciiUpper(seg[0]) != 'M'
    ensures Parse(NonNull(seg)) == Failure(NoMshReason)
  {
    SplitWithoutSeparators(seg, LineBreaks);
    assert FirstSegment(seg) == NonNull(seg);
  }

  /** The test message that opens with a PID segment is refused, with a reason that names MSH. */
  lemma ParseRejectsPidSegment()
    ensures Parse(NonNull("PID|1||PAT001^^^LAB^MR")) == Failure(NoMshReason)
    ensures Contains(NoMshReason, "MSH")
  {
    var message := "PID|1||PAT001^^^LAB^MR";
    assert Avoids(message, LineBreaks);
    assert message[0] == 'P';
    ParseRejectsOtherSegment(message);
    ReasonsNameMsh(0);
  }

  /** Every failure past the empty-body check names the MSH segment in its reason. */
  lemma FailureReasonsNameMsh(message: string)
    requires !IsBlank(message) && !Parse(NonNull(message)).isValid
    ensures Contains(Parse(NonNull(message)).errorReason.value, "MSH")
  {
    var first := FirstSegment(message);
    if first.NonNull? {
      ReasonsNameMsh(|Split(first.value, {FieldSeparator})|);
    } else {
      ReasonsNameMsh(0);
    }
  }

  // ---------------------------------------------------------------------------
  // Messages assembled from fields

  /**
   * A message whose first segment is assembled from pipe-free fields, the
   * first of them "MSH", parses to the tenth field trimmed, or fails
   * because that field is blank; later segments play no part.
   */
  lemma ParseAssembledMessage(fields: seq<string>, sep: string, rest: string)
    requires |fields| > MessageControlIdIndex && fields[0] == MshPrefix
    requires forall i | 0 <= i < |fields| :: Avoids(fields[i], {FieldSeparator, '\r', '\n'})
    requires IsLineBreakRun(sep)
    ensures Parse(NonNull(Join(fields, "|") + sep + rest)) ==
      if IsBlank(fields[MessageControlIdIndex]) then Failure(EmptyControlIdReason)
      else Success(Trim(fields[MessageControlIdIndex]))
  {
    var seg := Join(fields, "|");
    AssembledSegmentShape(fields);
    LaterSegmentsIgnored(seg, sep, rest);
    ParseAssembledSegment(fields);
  }

  lemma AssembledSegmentShape(fields: seq<string>)
    requires |fields| > 1 && fields[0] == MshPrefix
    requires forall i | 0 <= i < |fields| :: Avoids(fields[i], {FieldSeparator, '\r', '\n'})
    ensures var seg := Join(fields, "|");
      Avoids(seg, LineBreaks) && !IsBlank(seg) && StartsWithIgnoreCase(seg, MshPrefix)
  {
    var seg := Join(fields, "|");
    assert seg == "MSH" + "|" + Join(fields[1..], "|");
    JoinAvoids(fields, '|', LineBreaks);
    assert seg[0] == 'M';
  }

  /** The single-segment case of ParseAssembledMessage. */
  lemma ParseAssembledSegment(fields: seq<string>)
    requires |fields| > MessageControlIdIndex && fields[0] == MshPrefix
    requires forall i | 0 <= i < |fields| :: Avoids(fields[i], {FieldSeparator, '\r', '\n'})
    ensures Parse(NonNull(Join(fields, "|"))) ==
      if IsBlank(fields[MessageControlIdIndex]) then Failure(EmptyControlIdReason)
      else Success(Trim(fields[MessageControlIdIndex]))
  {
    var seg := Join(fields, "|");
    AssembledSegmentShape(fields);
    SplitWithoutSeparators(seg, LineBreaks);
    assert forall i | 0 <= i < |fields| :: Avoids(fields[i], {FieldSeparator});
    SplitJoin(fields, FieldSeparator);
  }

  /** The fields of a test message whose control id is "ALPHA123". */
  const ExampleFields: seq<string> :=
    ["MSH", "^~\\&", "A", "B", "C", "D", "20260101", "", "ADT^A01", "ALPHA123", "P", "2.4"]

  /** The control id "ALPHA123" is read back from the single-segment message made of ExampleFields. */
  lemma ParseExampleMessage()
    ensures Parse(NonNull(Join(ExampleFields, "|"))) == Success("ALPHA123")
  {
    var fields := ExampleFields;
    assert fields[MessageControlIdIndex] == "ALPHA123";
    assert Avoids(fields[MessageControlIdIndex], {FieldSeparator, '\r', '\n'});
    assert forall i | 0 <= i < |fields| :: Avoids(fields[i], {FieldSeparator, '\r', '\n'});
    assert !IsBlank(fields[MessageControlIdIndex]) by { assert !IsWhiteSpace("ALPHA123"[0]); }
    TrimUnchanged("ALPHA123");
    ParseAssembledSegment(fields);
  }
}
