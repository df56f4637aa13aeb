/** The adapter: one bridge subprocess's output becomes one complete run of events. */
module HermesAdapter {
  import opened Prelude
  import opened RuntimeContract

  /** UTF-8 length of a text. */
  function Utf8Length(text: string): nat {
    if text == "" then 0
    else
      var n := text[0] as int;
      (if n < 0x80 then 1 else if n < 0x800 then 2 else if n < 0x10000 then 3 else 4) + Utf8Length(text[1..])
  }

  /** The bytes of one character, after section 3 of RFC 3629. */
  function Utf8(c: char): seq<int> {
    var n := c as int;
    if n < 0x80 then [n]
    else if n < 0x800 then [0xC0 + n / 64, 0x80 + n % 64]
    else if n < 0x1_0000 then [0xE0 + n / 4096, 0x80 + n / 64 % 64, 0x80 + n % 64]
    else [0xF0 + n / 262_144, 0x80 + n / 4096 % 64, 0x80 + n / 64 % 64, 0x80 + n % 64]
  }

  function Utf8Text(text: string): seq<int> {
    if text == "" then [] else Utf8(text[0]) + Utf8Text(text[1..])
  }

  /** The length counts those bytes. */
  lemma {:induction false} Utf8Counts(text: string)
    ensures |Utf8Text(text)| == Utf8Length(text)
    decreases |text|
  {
    if text != "" {
      Utf8Counts(text[1..]);
    }
  }

  lemma {:induction false} Utf8Append(a: string, b: string)
    ensures Utf8Length(a + b) == Utf8Length(a) + Utf8Length(b)
    decreases |a|
  {
    if a == "" {
      assert a + b == b;
    } else {
      assert (a + b)[1..] == a[1..] + b;
      Utf8Append(a[1..], b);
    }
  }

  /** How reading the bridge ends once its lines are consumed. A system failure may come
      before the first line, when the bridge does not start, or after any. */
  datatype Ending =
    | EndOfOutput(exitCode: int)
    | TimedOut
    | SystemFailed
    | OtherException
    | TaskCancelled

  /** The code under which an ending that is not a completion fails the turn. */
  function EndingCode(ending: Ending): ErrorCode {
    match ending
    case EndOfOutput(exitCode) => if exitCode != 0 then NonzeroExit else BridgeExited
    case TimedOut => RuntimeTimeout
    case SystemFailed => StartFailed
    case OtherException => ProtocolFailed
    case TaskCancelled => BridgeExited
  }

  /** If the run ends failed, it is with this code. */
  predicate FailsOnlyAs(events: seq<RuntimeEvent>, code: ErrorCode) {
    events != [] && events[|events| - 1].kind.TurnFailed? ==> events[|events| - 1].errorCode == Some(code)
  }

  /** What the read loop remembers between records. */
  datatype Intake = Intake(
    ready: bool,
    completed: Option<seq<string>>,
    lastOperation: int,
    active: map<int, (Category, Capability)>,
    visibleBytes: nat)

  const NO_INTAKE := Intake(false, None, 0, map[], 0)

  /** The checks a record must pass, and what it leaves behind. */
  function Accept(st: Intake, r: Record, maxVisibleBytes: nat): Result<Intake, ErrorCode> {
    if r.Ready? then if st.ready then Err(InvalidEvent) else Ok(st.(ready := true))
    else if !st.ready then Err(InvalidEvent)
    else
      match r
      case ToolStartRecord(id, category, capability) =>
        if id != st.lastOperation + 1 || id in st.active then Err(InvalidEvent)
        else Ok(st.(lastOperation := id, active := st.active[id := (category, capability)]))
      case ToolDoneRecord(id, category, capability, _) =>
        if id !in st.active || st.active[id] != (category, capability) then Err(InvalidEvent)
        else Ok(st.(active := st.active - {id}))
      case Delta(text) =>
        if st.visibleBytes + Utf8Length(text) > maxVisibleBytes then Err(OutputTooLarge)
        else Ok(st.(visibleBytes := st.visibleBytes + Utf8Length(text)))
      case CompletedRecord(refs) =>
        if st.completed.Some? then Err(InvalidEvent) else Ok(st.(completed := Some(refs)))
      case _ => Ok(st)
  }

  /** Bridge-reported codes keep only lower-case letters, digits and underscores. For
      characters beyond ASCII the answer is Unicode's, given by `foreign`. */
  predicate PlainCodeChar(c: char, foreign: char -> bool) {
    'a' <= c <= 'z' || '0' <= c <= '9' || c == '_' || (c as int >= 0x80 && foreign(c))
  }

  function SanitizeErrorCode(value: Option<string>, foreign: char -> bool): ErrorCode {
    if value.Some? && 0 < |value.value| <= 64 && forall i :: 0 <= i < |value.value| ==> PlainCodeChar(value.value[i], foreign)
    then Reported(value.value)
    else HermesFailed
  }

  /** The event a record asks for, before numbering. */
  function EventOf(turnId: TurnId, r: Record, foreign: char -> bool): Option<RuntimeEvent> {
    match r
    case Ready => Some(Plain(turnId, 0, TurnStarted))
    case PhaseRecord(phase) => Some(Plain(turnId, 0, PhaseChanged).(phase := Some(phase)))
    case ToolStartRecord(id, category, capability) =>
      Some(Plain(turnId, 0, ToolStarted).(operationId := Some(id), category := Some(category), capability := Some(capability)))
    case ToolDoneRecord(id, category, capability, ms) =>
      Some(Plain(turnId, 0, ToolCompleted)
        .(operationId := Some(id), category := Some(category), capability := Some(capability), durationMs := Some(ms)))
    case Delta(text) => if text == "" then None else Some(Plain(turnId, 0, MessageDelta).(delta := Some(text)))
    case CompletedRecord(_) => None
    case FailedRecord(code) => Some(FailedEvent(turnId, 0, SanitizeErrorCode(code, foreign)))
    case CancelledRecord => Some(Plain(turnId, 0, TurnCancelled))
  }

  // ----- What the records say, as events -------------------------------------------------

  /** The event says what the record says, field by field. */
  predicate Tells(e: RuntimeEvent, r: Record) {
    match r
    case Ready => e.kind == TurnStarted
    case PhaseRecord(phase) => e.kind == PhaseChanged && e.phase == Some(phase)
    case ToolStartRecord(id, category, capability) =>
      e.kind == ToolStarted && e.operationId == Some(id) && e.category == Some(category) && e.capability == Some(capability)
    case ToolDoneRecord(id, category, capability, ms) =>
      && e.kind == ToolCompleted && e.operationId == Some(id) && e.category == Some(category)
      && e.capability == Some(capability) && e.durationMs == Some(ms)
    case Delta(text) => e.kind == MessageDelta && e.delta == Some(text)
    case CompletedRecord(_) => false
    case FailedRecord(_) => e.kind == TurnFailed
    case CancelledRecord => e.kind == TurnCancelled
  }

  /** All records but empty text and completion are told. */
  function Told(records: seq<Record>): seq<Record>
    decreases |records|
  {
    if records == [] then []
    else
      var last := records[|records| - 1];
      Told(records[..|records| - 1]) + (if last.CompletedRecord? || last == Delta("") then [] else [last])
  }

  lemma ToldAppend(records: seq<Record>, r: Record)
    ensures Told(records + [r]) == Told(records) + (if r.CompletedRecord? || r == Delta("") then [] else [r])
  {
    assert (records + [r])[..|records|] == records;
  }

  /** One event per told record, in order. */
  predicate TellAll(events: seq<RuntimeEvent>, records: seq<Record>) {
    |events| == |Told(records)| && forall i :: 0 <= i < |events| ==> Tells(events[i], Told(records)[i])
  }

  lemma TellOneMore(events: seq<RuntimeEvent>, records: seq<Record>, turnId: TurnId, r: Record, foreign: char -> bool, n: int)
    requires TellAll(events, records)
    ensures EventOf(turnId, r, foreign).None? ==> TellAll(events, records + [r])
    ensures EventOf(turnId, r, foreign).Some? ==>
      TellAll(events + [EventOf(turnId, r, foreign).value.(sequence := n)], records + [r])
  {
    ToldAppend(records, r);
    hide Told;
  }

  function Records(lines: seq<Line>): seq<Record>
    decreases |lines|
  {
    if lines == [] then []
    else
      var last := lines[|lines| - 1];
      Records(lines[..|lines| - 1]) + (if last.Readable? then [last.record] else [])
  }

  /** Reading and accepting the lines one after the other. */
  function Digest(lines: seq<Line>, maxVisibleBytes: nat): Result<Intake, ErrorCode>
    decreases |lines|
  {
    if lines == [] then Ok(NO_INTAKE)
    else DigestLine(Digest(lines[..|lines| - 1], maxVisibleBytes), lines[|lines| - 1], maxVisibleBytes)
  }

  function DigestLine(before: Result<Intake, ErrorCode>, line: Line, maxVisibleBytes: nat): Result<Intake, ErrorCode> {
    if before.Err? then before
    else if ParseRecord(line).Err? then Err(ParseRecord(line).error)
    else Accept(before.value, ParseRecord(line).value, maxVisibleBytes)
  }

  /** The bridge itself reported an end of the turn. */
  ghost predicate ReportsEnd(lines: seq<Line>) {
    exists r :: r in Records(lines) && (r.FailedRecord? || r.CancelledRecord?)
  }

  lemma DigestNext(lines: seq<Line>, i: nat, max: nat)
    requires i < |lines|
    ensures Digest(lines[..i + 1], max) == DigestLine(Digest(lines[..i], max), lines[i], max)
    ensures Records(lines[..i + 1]) == Records(lines[..i]) + (if lines[i].Readable? then [lines[i].record] else [])
  {
    assert lines[..i + 1][..i] == lines[..i];
  }

  /** The event of a record in bounds can be emitted, and carries the record's text. */
  lemma EventFits(turnId: TurnId, r: Record, foreign: char -> bool)
    requires InBounds(r)
    ensures var e := EventOf(turnId, r, foreign);
      && (e.None? ==> !(r.FailedRecord? || r.CancelledRecord?) && (r.Delta? ==> r.text == ""))
      && (e.Some? ==>
            && e.value.turnId == turnId && e.value.Valid() && (IsTerminal(e.value.kind) ==> e.value.delta.None?)
            && (IsTerminal(e.value.kind) <==> r.FailedRecord? || r.CancelledRecord?) && !e.value.kind.TurnCompleted?
            && TextOf(e.value) == (if r.Delta? then r.text else ""))
  {
    hide ValidRefs;
  }

  lemma {:induction false} DigestFails(lines: seq<Line>, i: nat, max: nat)
    requires i <= |lines| && Digest(lines[..i], max).Err?
    ensures Digest(lines, max).Err?
    decreases |lines| - i
  {
    if i == |lines| {
      assert lines[..i] == lines;
    } else {
      DigestNext(lines, i, max);
      DigestFails(lines, i + 1, max);
    }
  }

  lemma {:induction false} RecordsGrow(lines: seq<Line>, i: nat)
    requires i <= |lines|
    ensures forall r :: r in Records(lines[..i]) ==> r in Records(lines)
    decreases |lines| - i
  {
    if i == |lines| {
      assert lines[..i] == lines;
    } else {
      DigestNext(lines, i, 0);
      RecordsGrow(lines, i + 1);
    }
  }

  lemma {:induction false} CompletionIsRecord(lines: seq<Line>, max: nat)
    requires Digest(lines, max).Ok?
    ensures Digest(lines, max).value.completed.Some? ==>
      CompletedRecord(Digest(lines, max).value.completed.value) in Records(lines)
      && ValidRefs(Digest(lines, max).value.completed.value)
    ensures (exists r :: r in Records(lines) && r.CompletedRecord?) ==> Digest(lines, max).value.completed.Some?
    ensures forall l :: l in lines ==> l.Readable?
    decreases |lines|
  {
    if lines != [] {
      CompletionIsRecord(lines[..|lines| - 1], max);
      assert lines == lines[..|lines| - 1] + [lines[|lines| - 1]];
    }
  }

  /** The visible bytes are those of the text, and exceeding them is a matter of the text
      alone, however it is cut into records. */
  lemma {:induction false} DigestMeasures(lines: seq<Line>, max: nat)
    requires forall i :: 0 <= i < |lines| ==> lines[i].Readable?
    ensures Digest(lines, max).Ok? ==>
      Digest(lines, max).value.visibleBytes == Utf8Length(RecordText(Records(lines))) <= max
    ensures Digest(lines, max) == Err(OutputTooLarge) ==> Utf8Length(RecordText(Records(lines))) > max
    decreases |lines|
  {
    hide Utf8Length, RecordText, ValidRefs, DigestLine;
    NothingMeasured();
    if lines != [] {
      var front, r := lines[..|lines| - 1], lines[|lines| - 1].record;
      DigestMeasures(front, max);
      RecordTextAppend(Records(front), r);
      Utf8Append(RecordText(Records(front)), if r.Delta? then r.text else "");
      LineMeasures(Digest(front, max), r, max);
    }
  }

  lemma NothingMeasured()
    ensures Utf8Length(RecordText([])) == 0 && Utf8Length("") == 0
  {
  }

  lemma LineMeasures(before: Result<Intake, ErrorCode>, r: Record, max: nat)
    ensures
      var after, size := DigestLine(before, Readable(r), max), Utf8Length(if r.Delta? then r.text else "");
      && (after.Ok? ==> before.Ok? && after.value.visibleBytes == before.value.visibleBytes + size)
      && (after.Ok? && before.Ok? && before.value.visibleBytes <= max ==> after.value.visibleBytes <= max)
      && (after == Err(OutputTooLarge) ==> before == after || (before.Ok? && before.value.visibleBytes + size > max))
  {
    hide ValidRefs;
  }

  class HermesTurn {
    const turnId: TurnId
    const maxVisibleBytes: nat
    const foreign: char -> bool
    var queue: seq<RuntimeEvent>
    var cancelRequested: bool
    var sequence: nat
    var terminalEvent: Option<RuntimeEvent>

    constructor (turnId: TurnId, maxVisibleBytes: nat, foreign: char -> bool)
      ensures this.turnId == turnId && this.maxVisibleBytes == maxVisibleBytes && this.foreign == foreign
      ensures queue == [] && sequence == 0 && terminalEvent.None? && !cancelRequested
    {
      this.turnId, this.maxVisibleBytes, this.foreign := turnId, maxVisibleBytes, foreign;
      queue, cancelRequested, sequence, terminalEvent := [], false, 0, None;
    }

    /** Numbered so far, nothing terminal queued; a terminal event waits aside. */
    ghost predicate Running()
      reads this
    {
      && (forall i :: 0 <= i < |queue| ==>
            queue[i].sequence == i + 1 && queue[i].turnId == turnId && queue[i].Valid() && !IsTerminal(queue[i].kind))
      && sequence == |queue| + (if terminalEvent.Some? then 1 else 0)
      && (terminalEvent.Some? ==> FitsTerminal(terminalEvent.value) && terminalEvent.value.sequence == sequence)
    }

    predicate FitsTerminal(e: RuntimeEvent) {
      e.turnId == turnId && e.Valid() && IsTerminal(e.kind) && e.delta.None?
    }

    /** Number an event and queue it, or keep it as the one terminal event. After that
        nothing more is emitted. */
    method Emit(event: RuntimeEvent)
      requires Running() && event.turnId == turnId && event.Valid() && (IsTerminal(event.kind) ==> event.delta.None?)
      modifies this`queue, this`sequence, this`terminalEvent
      ensures Running()
      ensures
        if old(terminalEvent).Some? then queue == old(queue) && terminalEvent == old(terminalEvent)
        else if IsTerminal(event.kind) then queue == old(queue) && terminalEvent == Some(event.(sequence := sequence))
        else queue == old(queue) + [event.(sequence := sequence)] && terminalEvent.None?
    {
      if terminalEvent.Some? {
        return;
      }
      sequence := sequence + 1;
      var numbered := event.(sequence := sequence);
      if IsTerminal(event.kind) {
        terminalEvent := Some(numbered);
      } else {
        queue := queue + [numbered];
      }
    }

    /** The read loop: stops at the first line that cannot be accepted. */
    method ReadLines(lines: seq<Line>) returns (st: Intake, failure: Option<ErrorCode>)
      requires Running() && queue == [] && terminalEvent.None?
      modifies this`queue, this`sequence, this`terminalEvent
      ensures Running()
      ensures failure.Some? <==> Digest(lines, maxVisibleBytes).Err?
      ensures failure.None? ==> Digest(lines, maxVisibleBytes) == Ok(st)
      ensures failure.None? && terminalEvent.None? ==> EventText(queue) == RecordText(Records(lines))
      ensures failure.None? && terminalEvent.None? ==> TellAll(queue, Records(lines))
      ensures terminalEvent.Some? ==> ReportsEnd(lines) && !terminalEvent.value.kind.TurnCompleted?
      ensures failure.None? && ReportsEnd(lines) ==> terminalEvent.Some?
    {
      hide Digest, EventText, RecordText, Records, TellAll, ValidRefs, Accept, EventOf;
      st, failure := NO_INTAKE, None;
      NothingRead(lines, maxVisibleBytes);
      for i := 0 to |lines|
        invariant Running() && failure.None?
        invariant Digest(lines[..i], maxVisibleBytes) == Ok(st)
        invariant terminalEvent.None? ==> EventText(queue) == RecordText(Records(lines[..i]))
        invariant terminalEvent.None? ==> TellAll(queue, Records(lines[..i]))
        invariant terminalEvent.Some? ==> ReportsEnd(lines[..i]) && !terminalEvent.value.kind.TurnCompleted?
        invariant ReportsEnd(lines[..i]) ==> terminalEvent.Some?
      {
        DigestNext(lines, i, maxVisibleBytes);
        RecordsGrow(lines, i);
        RecordsGrow(lines, i + 1);
        var parsed := ParseRecord(lines[i]);
        if parsed.Err? {
          DigestFails(lines, i + 1, maxVisibleBytes);
          failure := Some(parsed.error);
          return;
        }
        var accepted := Accept(st, parsed.value, maxVisibleBytes);
        if accepted.Err? {
          DigestFails(lines, i + 1, maxVisibleBytes);
          failure := Some(accepted.error);
          return;
        }
        st := accepted.value;
        var event := EventOf(turnId, parsed.value, foreign);
        EventFits(turnId, parsed.value, foreign);
        assert RecordText(Records(lines[..i])) + "" == RecordText(Records(lines[..i]));
        RecordTextAppend(Records(lines[..i]), parsed.value);
        if terminalEvent.None? {
          TellOneMore(queue, Records(lines[..i]), turnId, parsed.value, foreign, sequence + 1);
        }
        if event.Some? {
          EventTextAppend(queue, event.value.(sequence := sequence + 1));
          Emit(event.value);
        }
      }
      assert lines[..|lines|] == lines;
    }

    /** What is emitted when no line of the bridge has ended the turn. */
    method Conclude(st: Intake, failure: Option<ErrorCode>, ending: Ending)
      requires Running() && (st.completed.Some? ==> ValidRefs(st.completed.value))
      modifies this`queue, this`sequence, this`terminalEvent
      ensures Running() && queue == old(queue) && terminalEvent.Some?
      ensures old(terminalEvent).Some? ==> terminalEvent == old(terminalEvent)
      ensures old(terminalEvent).None? ==>
        && terminalEvent.value.kind.TurnCompleted?
           == (failure.None? && ending == EndOfOutput(0) && !cancelRequested && st.completed.Some?)
        && (terminalEvent.value.kind.TurnCompleted? ==> terminalEvent.value.refs == st.completed.value)
        && terminalEvent.value.kind.TurnCancelled?
           == (failure.None? && cancelRequested && (ending.EndOfOutput? || ending.TaskCancelled?))
        && (terminalEvent.value.kind.TurnFailed? ==>
              terminalEvent.value.errorCode == Some(if failure.Some? then failure.value else EndingCode(ending)))
    {
      if failure.Some? {
        Emit(FailedEvent(turnId, 0, failure.value));
      } else {
        match ending {
          case EndOfOutput(exitCode) =>
            if cancelRequested {
              Emit(Plain(turnId, 0, TurnCancelled));
            } else if st.completed.Some? && exitCode == 0 {
              Emit(Plain(turnId, 0, TurnCompleted).(refs := st.completed.value));
            } else if exitCode != 0 {
              Emit(FailedEvent(turnId, 0, NonzeroExit));
            } else {
              Emit(FailedEvent(turnId, 0, BridgeExited));
            }
          case TimedOut => Emit(FailedEvent(turnId, 0, RuntimeTimeout));
          case SystemFailed => Emit(FailedEvent(turnId, 0, StartFailed));
          case OtherException => Emit(FailedEvent(turnId, 0, ProtocolFailed));
          case TaskCancelled =>
            if cancelRequested {
              Emit(Plain(turnId, 0, TurnCancelled));
            } else {
              Emit(FailedEvent(turnId, 0, BridgeExited));
            }
        }
      }
    }

    /** Read every line, conclude, and queue the terminal event last. Whatever the
        lines and the ending, the queue is one complete turn; it ends completed only
        when every line was accepted, and then its text is the text of the lines. */
    method Run(lines: seq<Line>, ending: Ending)
      requires Running() && queue == [] && terminalEvent.None?
      modifies this`queue, this`sequence, this`terminalEvent
      ensures CompleteTurn(queue, turnId) && queue[|queue| - 1].delta.None?
      ensures queue[|queue| - 1].kind.TurnCompleted? ==>
        && ending == EndOfOutput(0) && !cancelRequested
        && Digest(lines, maxVisibleBytes).Ok? && !ReportsEnd(lines)
        && EventText(queue) == RecordText(Records(lines)) && TellAll(queue[..|queue| - 1], Records(lines))
        && CompletedRecord(queue[|queue| - 1].refs) in Records(lines)
      ensures Digest(lines, maxVisibleBytes).Ok? && !ReportsEnd(lines) ==>
        FailsOnlyAs(queue, EndingCode(ending))
      ensures Digest(lines, maxVisibleBytes).Ok? && !ReportsEnd(lines) && ending == EndOfOutput(0) && !cancelRequested ==>
        (queue[|queue| - 1].kind.TurnCompleted? <==> exists r :: r in Records(lines) && r.CompletedRecord?)
    {
      hide Digest, EventText, RecordText, Records, TellAll;
      var st, failure := ReadLines(lines);
      if failure.None? {
        CompletionIsRecord(lines, maxVisibleBytes);
      } else {
        st := NO_INTAKE;
      }
      Conclude(st, failure, ending);
      EventTextAppend(queue, terminalEvent.value);
      assert EventText(queue + [terminalEvent.value]) == EventText(queue);
      queue := queue + [terminalEvent.value];
    }
  }

  lemma NothingRead(lines: seq<Line>, max: nat)
    ensures Digest(lines[..0], max) == Ok(NO_INTAKE) && Records(lines[..0]) == [] && EventText([]) == RecordText([])
    ensures TellAll([], Records(lines[..0]))
  {
  }
}
