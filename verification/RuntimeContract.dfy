/** Runtime events and the records of the private bridge, with their validity rules. */
module RuntimeContract {
  import opened Prelude

  type TurnId = nat

  const MAX_PRESENTED := 8
  const MAX_TOOL_OPERATIONS := 32
  const MAX_TOOL_DURATION_MS := 600_000

  datatype EventType =
    | TurnStarted | PhaseChanged | ToolStarted | ToolCompleted | MessageDelta
    | TurnCompleted | TurnFailed | TurnCancelled

  datatype Phase = Thinking | Searching | Reviewing | Computing | Composing

  datatype Category = Pdi | Exec | Web | ActionCategory | OtherCategory

  datatype Capability =
    | SearchPersonalResources | ReadPersonalResource | ReviewPersonalResources | RunPython | WriteWorkspace
    | ReadWorkspace | ManageWorkspace | SearchWeb | ReadWebSource | UseTool

  /** Every fixed code of the turn pipeline, and the one a bridge may report itself. */
  datatype ErrorCode =
    | LineTooLarge | MalformedOutput | InvalidEvent | OutputTooLarge | NonzeroExit | BridgeExited | RuntimeTimeout
    | StartFailed | ProtocolFailed | HermesFailed | RuntimeStartFailed | RuntimeFailed | RuntimeStreamFailed
    | StateCommitFailed | ProcessRestarted | Reported(text: string)

  predicate IsTerminal(t: EventType) {
    t.TurnCompleted? || t.TurnFailed? || t.TurnCancelled?
  }

  // ----- Resource references --------------------------------------------------------

  const REF_PREFIX := "pdi:resource:"

  predicate IsLowerHex(c: char) { '0' <= c <= '9' || 'a' <= c <= 'f' }

  /** `str(UUID(text)) == text`: the canonical lower-case hyphenated form. */
  predicate IsCanonicalUuid(text: string) {
    |text| == 36 && forall i :: 0 <= i < 36 ==> if i in {8, 13, 18, 23} then text[i] == '-' else IsLowerHex(text[i])
  }

  predicate IsCanonicalRef(ref: string) {
    REF_PREFIX <= ref && IsCanonicalUuid(ref[|REF_PREFIX|..])
  }

  predicate ValidRefs(refs: seq<string>) {
    && |refs| <= MAX_PRESENTED
    && (forall r :: r in refs ==> IsCanonicalRef(r))
    && (forall i, j :: 0 <= i < j < |refs| ==> refs[i] != refs[j])
  }

  // ----- Events ------------------------------------------------------------------------

  datatype RuntimeEvent = RuntimeEvent(
    turnId: TurnId,
    sequence: int,
    kind: EventType,
    phase: Option<Phase>,
    delta: Option<string>,
    errorCode: Option<ErrorCode>,
    refs: seq<string>,
    operationId: Option<int>,
    category: Option<Category>,
    capability: Option<Capability>,
    durationMs: Option<int>)
  {
    /** The construction check of an event. */
    predicate Valid() {
      && (if kind.TurnCompleted? then ValidRefs(refs) else refs == [])
      && (if kind.ToolStarted? || kind.ToolCompleted? then
            && operationId.Some? && 1 <= operationId.value <= MAX_TOOL_OPERATIONS
            && category.Some? && capability.Some?
            && phase.None? && delta.None? && errorCode.None?
            && (if kind.ToolStarted? then durationMs.None?
                else durationMs.Some? && 0 <= durationMs.value <= MAX_TOOL_DURATION_MS)
          else operationId.None? && category.None? && capability.None? && durationMs.None?)
    }
  }

  /** An event that carries nothing but its type. */
  function Plain(turnId: TurnId, sequence: int, kind: EventType): RuntimeEvent {
    RuntimeEvent(turnId, sequence, kind, None, None, None, [], None, None, None, None)
  }

  function FailedEvent(turnId: TurnId, sequence: int, code: ErrorCode): RuntimeEvent {
    Plain(turnId, sequence, TurnFailed).(errorCode := Some(code))
  }

  function TextOf(e: RuntimeEvent): string {
    if e.delta.Some? then e.delta.value else ""
  }

  /** The text the events add up to. */
  function EventText(events: seq<RuntimeEvent>): string
    decreases |events|
  {
    if events == [] then "" else EventText(events[..|events| - 1]) + TextOf(events[|events| - 1])
  }

  lemma EventTextAppend(events: seq<RuntimeEvent>, e: RuntimeEvent)
    ensures EventText(events + [e]) == EventText(events) + TextOf(e)
  {
    assert (events + [e])[..|events|] == events;
  }

  /** A complete run of events: numbered from 1, one terminal event, the last. */
  ghost predicate CompleteTurn(events: seq<RuntimeEvent>, turnId: TurnId) {
    && |events| > 0
    && (forall i :: 0 <= i < |events| ==> events[i].sequence == i + 1 && events[i].turnId == turnId && events[i].Valid())
    && (forall i :: 0 <= i < |events| ==> (IsTerminal(events[i].kind) <==> i == |events| - 1))
  }

  // ----- Bridge records ------------------------------------------------------------------

  /** A line of bridge output once it is JSON of a known type; numbers and lists are
      as the line has them. */
  datatype Record =
    | Ready
    | PhaseRecord(phase: Phase)
    | ToolStartRecord(operationId: int, category: Category, capability: Capability)
    | ToolDoneRecord(operationId: int, category: Category, capability: Capability, durationMs: int)
    | Delta(text: string)
    | CompletedRecord(refs: seq<string>)
    | FailedRecord(code: Option<string>)
    | CancelledRecord

  /** A line, or the code under which reading or decoding it fails. */
  datatype Line = Readable(record: Record) | Unreadable(code: ErrorCode)

  /** The value checks of `_parse_record`. */
  predicate InBounds(r: Record) {
    match r
    case CompletedRecord(refs) => ValidRefs(refs)
    case ToolStartRecord(id, _, _) => 1 <= id <= MAX_TOOL_OPERATIONS
    case ToolDoneRecord(id, _, _, ms) => 1 <= id <= MAX_TOOL_OPERATIONS && 0 <= ms <= MAX_TOOL_DURATION_MS
    case _ => true
  }

  function ParseRecord(line: Line): Result<Record, ErrorCode> {
    match line
    case Unreadable(code) => Err(code)
    case Readable(r) => if InBounds(r) then Ok(r) else Err(InvalidEvent)
  }

  /** The text and completion records, in order: what the reader of a turn's text sees. */
  function TextRecords(records: seq<Record>): seq<Record>
    decreases |records|
  {
    if records == [] then []
    else
      var last := records[|records| - 1];
      TextRecords(records[..|records| - 1]) + (if last.Delta? || last.CompletedRecord? then [last] else [])
  }

  lemma TextRecordsAppend(records: seq<Record>, r: Record)
    ensures TextRecords(records + [r]) == TextRecords(records) + (if r.Delta? || r.CompletedRecord? then [r] else [])
  {
    assert (records + [r])[..|records|] == records;
  }

  function RecordText(records: seq<Record>): string
    decreases |records|
  {
    if records == [] then ""
    else
      var last := records[|records| - 1];
      RecordText(records[..|records| - 1]) + (if last.Delta? then last.text else "")
  }

  lemma RecordTextAppend(records: seq<Record>, r: Record)
    ensures RecordText(records + [r]) == RecordText(records) + (if r.Delta? then r.text else "")
  {
    assert (records + [r])[..|records|] == records;
  }
}
