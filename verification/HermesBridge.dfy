/** The bridge's own run: what it writes to the protocol stream once the agent has
    answered, while tool threads may write records in between. */
module HermesBridge {
  import opened Prelude
  import opened RuntimeContract
  import opened HermesAdapter
  import opened ToolTelemetry
  import opened VisibleText

  const CHUNK := 16_384

  /** How the agent's conversation ends. */
  datatype Answer = AgentRaised | Finished(completed: bool, final: Option<string>)

  /** The slices of s, CHUNK characters at a time. */
  function Slices(s: string): seq<string>
    decreases |s|
  {
    if s == "" then []
    else if |s| <= CHUNK then [s]
    else [s[..CHUNK]] + Slices(s[CHUNK..])
  }

  function DeltasOf(parts: seq<string>): (records: seq<Record>)
    ensures |records| == |parts|
    ensures forall i :: 0 <= i < |parts| ==> records[i] == Delta(parts[i])
  {
    seq(|parts|, i requires 0 <= i < |parts| => Delta(parts[i]))
  }

  /** The text records of a completed answer. */
  function FullText(final: string, lower: char -> char, refs: seq<string>): seq<Record> {
    DeltasOf(Slices(Strip(final, false, lower))) + [CompletedRecord(refs)]
  }

  /** Every slice but the last has 16384 characters, and none is empty. */
  lemma {:induction false} SlicesAre(s: string)
    ensures forall i :: 0 <= i < |Slices(s)| ==> 0 < |Slices(s)[i]| <= 16_384
    ensures forall i :: 0 <= i < |Slices(s)| - 1 ==> |Slices(s)[i]| == 16_384
    decreases |s|
  {
    if |s| > CHUNK {
      SlicesAre(s[CHUNK..]);
    }
  }

  lemma {:induction false} SlicesJoin(s: string)
    ensures Join(Slices(s)) == s
    decreases |s|
  {
    if |s| > CHUNK {
      SlicesJoin(s[CHUNK..]);
      assert s == s[..CHUNK] + s[CHUNK..];
      var rest := Slices(s[CHUNK..]);
      assert ([s[..CHUNK]] + rest)[1..] == rest;
    } else if s != "" {
      var one := [s];
      assert one[1..] == [];
      assert Join(one) == s + Join([]);
    }
  }

  /** The answer is finished and something of it is visible. */
  predicate Shown(answer: Answer, lower: char -> char) {
    answer.Finished? && answer.completed && answer.final.Some? && Strip(answer.final.value, false, lower) != ""
  }

  /** The bridge itself reported an end of the turn that is not a completion. */
  predicate EndsOtherwise(records: seq<Record>) {
    exists i :: 0 <= i < |records| && (records[i].FailedRecord? || records[i].CancelledRecord?)
  }

  /** Phase and tool records of other threads, any number of them, in any order. */
  method OtherThreads(telemetry: ToolTelemetry)
    requires telemetry.Valid()
    modifies telemetry, telemetry.writer
    ensures telemetry.Valid() && TextRecords(telemetry.writer.records) == TextRecords(old(telemetry.writer.records))
  {
    hide TextRecords, Followable, Started, Taken, Written;
    var steps: nat := *;
    while steps > 0
      invariant telemetry.Valid() && TextRecords(telemetry.writer.records) == TextRecords(old(telemetry.writer.records))
    {
      var step: Step := *;
      StepWritesNoText(telemetry.Value(), step);
      match step {
        case StartCall(id, category, capability, now) => telemetry.Start(id, category, capability, now);
        case CompleteLocked(id, now) => telemetry.TakeCompletion(id, now);
        case CompleteWrite(pick) => telemetry.WriteCompletion(pick);
        case OtherRecord(r) =>
          if r.PhaseRecord? {
            var _ := telemetry.EmitWork(r);
          }
      }
      steps := steps - 1;
    }
  }

  lemma StepWritesNoText(t: Telemetry, step: Step)
    requires Followable(t)
    ensures !(step.OtherRecord? && step.record.Delta?) ==> TextRecords(Next(t, step).records) == TextRecords(t.records)
  {
    hide Matched, TextRecords, PrivateToolKey;
    match step {
      case StartCall(_, category, capability, _) => TextRecordsAppend(t.records, ToolStartRecord(t.next + 1, category, capability));
      case CompleteWrite(pick) =>
        if pick < |t.unwritten| {
          TextRecordsAppend(t.records, t.unwritten[pick]);
        }
      case OtherRecord(r) => TextRecordsAppend(t.records, r);
      case _ =>
    }
  }

  /** The handler of anything raised: the turn is reported cancelled or failed, if it can be. */
  method ReportRaised(writer: ProtocolWriter, cancelled: bool) returns (exitCode: int)
    modifies writer
    ensures TextRecords(writer.records) == TextRecords(old(writer.records))
    ensures exitCode == 0 ==> EndsOtherwise(writer.records)
  {
    hide TextRecords;
    exitCode := Report(writer, if cancelled then CancelledRecord else FailedRecord(Some("hermes_failed")), if cancelled then 0 else 1);
  }

  /** One closing record; an exception from the handler itself ends the process. */
  method Report(writer: ProtocolWriter, r: Record, code: int) returns (exitCode: int)
    requires r.FailedRecord? || r.CancelledRecord?
    modifies writer
    ensures TextRecords(writer.records) == TextRecords(old(writer.records))
    ensures exitCode == 0 ==> EndsOtherwise(writer.records)
  {
    hide TextRecords;
    TextRecordsAppend(writer.records, r);
    assert TextRecords(writer.records) + [] == TextRecords(writer.records);
    var raised := writer.Emit(r);
    if raised {
      return 1;
    }
    assert writer.records[|writer.records| - 1] == r;
    return code;
  }

  /** The rest of the turn once the agent is started. `cancelRequested` is the flag when the
      agent returns, `cancelledLater` when an exception is handled. Text is written in order,
      never more than the visible answer; a zero exit with no other end reported means
      that the answer was shown in full and then completed. */
  method Answered(
    telemetry: ToolTelemetry, answer: Answer, cancelRequested: bool, cancelledLater: bool,
    lower: char -> char, refs: seq<string>)
    returns (exitCode: int, ghost worked: Telemetry)
    requires telemetry.Valid() && TextRecords(telemetry.writer.records) == []
    requires cancelRequested ==> cancelledLater
    modifies telemetry, telemetry.writer
    ensures TextRecords(telemetry.writer.records)
      <= if Shown(answer, lower) then FullText(answer.final.value, lower, refs) else []
    ensures exitCode == 0 && !EndsOtherwise(telemetry.writer.records) ==>
      && !cancelRequested && Shown(answer, lower)
      && TextRecords(telemetry.writer.records) == FullText(answer.final.value, lower, refs)
      && Followable(worked) && telemetry.writer.records == worked.records + [CompletedRecord(refs)]
    ensures telemetry.writer.reliable && !cancelRequested && Shown(answer, lower) ==>
      exitCode == 0 && !EndsOtherwise(telemetry.writer.records)
  {
    hide TextRecords, Strip, Slices, Followable, EndsOtherwise;
    OtherThreads(telemetry);
    worked := telemetry.Value();
    if answer.AgentRaised? {
      exitCode := ReportRaised(telemetry.writer, cancelledLater);
    } else if cancelRequested {
      exitCode := Report(telemetry.writer, CancelledRecord, 0);
    } else if !answer.completed {
      exitCode := Report(telemetry.writer, FailedRecord(Some("hermes_failed")), 1);
    } else if answer.final.None? || answer.final.value == "" {
      assert answer.final.Some? ==> Strip("", false, lower) == "" by {
        StripNothing(false, lower);
      }
      exitCode := Report(telemetry.writer, FailedRecord(Some("hermes_empty_response")), 1);
    } else {
      var safeFinal := FilterChunks([answer.final.value], lower);
      JoinOne(answer.final.value);
      if safeFinal == "" {
        exitCode := Report(telemetry.writer, FailedRecord(Some("hermes_empty_response")), 1);
      } else {
        exitCode, worked := Show(telemetry, safeFinal, cancelledLater, refs);
      }
    }
  }

  /** Writing the visible answer, and then the completion. */
  method Show(telemetry: ToolTelemetry, text: string, cancelledLater: bool, refs: seq<string>)
    returns (exitCode: int, ghost worked: Telemetry)
    requires telemetry.Valid() && TextRecords(telemetry.writer.records) == []
    modifies telemetry, telemetry.writer
    ensures TextRecords(telemetry.writer.records) <= DeltasOf(Slices(text)) + [CompletedRecord(refs)]
    ensures exitCode == 0 && !EndsOtherwise(telemetry.writer.records) ==>
      && TextRecords(telemetry.writer.records) == DeltasOf(Slices(text)) + [CompletedRecord(refs)]
      && Followable(worked) && telemetry.writer.records == worked.records + [CompletedRecord(refs)]
    ensures telemetry.writer.reliable ==> exitCode == 0 && !EndsOtherwise(telemetry.writer.records)
  {
    hide TextRecords, Slices, Followable, EndsOtherwise;
    var raised := EmitSlices(telemetry, text);
    worked := telemetry.Value();
    if !raised {
      OtherThreads(telemetry);
      worked := telemetry.Value();
      TextRecordsAppend(worked.records, CompletedRecord(refs));
      raised := telemetry.writer.Emit(CompletedRecord(refs));
    }
    if raised {
      exitCode := ReportRaised(telemetry.writer, cancelledLater);
    } else {
      WorkEndsNothing(worked, refs);
      exitCode := 0;
    }
  }

  lemma WorkEndsNothing(worked: Telemetry, refs: seq<string>)
    requires Followable(worked)
    ensures !EndsOtherwise(worked.records + [CompletedRecord(refs)])
  {
    hide Matched;
  }

  lemma JoinOne(s: string)
    ensures Join([s]) == s
  {
    var one := [s];
    assert one[1..] == [];
  }

  /** The slices in order, a phase record before each as it happens; an exception leaves
      some of them written. */
  method EmitSlices(telemetry: ToolTelemetry, text: string) returns (raised: bool)
    requires telemetry.Valid() && TextRecords(telemetry.writer.records) == []
    modifies telemetry, telemetry.writer
    ensures telemetry.Valid() && TextRecords(telemetry.writer.records) <= DeltasOf(Slices(text))
    ensures !raised ==> TextRecords(telemetry.writer.records) == DeltasOf(Slices(text))
    ensures telemetry.writer.reliable ==> !raised
  {
    hide TextRecords, Slices, DeltasOf, Followable, Next;
    raised := false;
    var offset := 0;
    NoSlices();
    assert text[0..] == text;
    ghost var left := DeltasOf(Slices(text));
    while offset < |text|
      invariant 0 <= offset <= |text| && telemetry.Valid() && left == DeltasOf(Slices(text[offset..]))
      invariant DeltasOf(Slices(text)) == TextRecords(telemetry.writer.records) + left
    {
      var end := if offset + CHUNK < |text| then offset + CHUNK else |text|;
      NextSlice(text, offset, end);
      left := DeltasOf(Slices(text[end..]));
      MoveOne(TextRecords(telemetry.writer.records), Delta(text[offset..end]), left);
      raised := EmitText(telemetry, text[offset..end]);
      if raised {
        return;
      }
      offset := end;
    }
    assert text[|text|..] == "";
  }

  /** `emit_text`: a phase record if the phase has changed, and the text. */
  method EmitText(telemetry: ToolTelemetry, text: string) returns (raised: bool)
    requires telemetry.Valid()
    modifies telemetry, telemetry.writer
    ensures telemetry.Valid()
    ensures TextRecords(telemetry.writer.records)
      == TextRecords(old(telemetry.writer.records)) + if raised then [] else [Delta(text)]
    ensures telemetry.writer.reliable ==> !raised
  {
    hide TextRecords, Followable, Next;
    OtherThreads(telemetry);
    raised := false;
    var changed: bool := *;
    if changed {
      TextRecordsAppend(telemetry.writer.records, PhaseRecord(Composing));
      raised := telemetry.EmitWork(PhaseRecord(Composing));
    }
    if !raised {
      TextRecordsAppend(telemetry.writer.records, Delta(text));
      raised := telemetry.EmitWork(Delta(text));
    }
  }

  lemma MoveOne(done: seq<Record>, r: Record, left: seq<Record>)
    ensures done + ([r] + left) == (done + [r]) + left
    ensures done <= done + ([r] + left)
  {
  }

  lemma NoSlices()
    ensures DeltasOf(Slices("")) == []
  {
  }

  lemma NextSlice(text: string, offset: nat, end: nat)
    requires offset < |text| && end == (if offset + CHUNK < |text| then offset + CHUNK else |text|)
    ensures DeltasOf(Slices(text[offset..])) == [Delta(text[offset..end])] + DeltasOf(Slices(text[end..]))
  {
    var rest := text[offset..];
    if |rest| > CHUNK {
      assert rest[..CHUNK] == text[offset..end] && rest[CHUNK..] == text[end..];
    } else {
      assert rest == text[offset..end] && text[end..] == "";
    }
  }

  lemma {:induction false} TextOfDeltas(parts: seq<string>)
    ensures RecordText(DeltasOf(parts)) == Join(parts)
    decreases |parts|
  {
    if parts != [] {
      var front, last := parts[..|parts| - 1], parts[|parts| - 1];
      assert DeltasOf(parts)[..|parts| - 1] == DeltasOf(front);
      TextOfDeltas(front);
      assert parts == front + [last];
      JoinAppend(front, last);
    }
  }

  /** Only text records carry text. */
  lemma {:induction false} TextOfTextRecords(records: seq<Record>)
    ensures RecordText(TextRecords(records)) == RecordText(records)
    decreases |records|
  {
    if records != [] {
      var front, last := records[..|records| - 1], records[|records| - 1];
      TextOfTextRecords(front);
      RecordTextAppend(TextRecords(front), last);
      assert TextRecords(front) + [] == TextRecords(front);
    }
  }

  /** The text of a completed answer's records is the think-stripped answer. */
  lemma CompleteRecordsText(records: seq<Record>, final: string, lower: char -> char, refs: seq<string>)
    requires TextRecords(records) == FullText(final, lower, refs)
    ensures RecordText(records) == Strip(final, false, lower)
  {
    hide Strip, Slices, TextRecords, RecordText;
    var shown := Strip(final, false, lower);
    TextOfTextRecords(records);
    RecordTextAppend(DeltasOf(Slices(shown)), CompletedRecord(refs));
    TextOfDeltas(Slices(shown));
    SlicesJoin(shown);
    assert shown + "" == shown;
  }
}
