/** One turn through every stage: bridge, records, adapter, events, coordinator, store. */
module TurnPipeline {
  import opened Prelude
  import opened RuntimeContract
  import opened VisibleText
  import opened HermesBridge
  import opened HermesAdapter
  import opened ToolTelemetry
  import ResourceResults
  import opened TurnRegistry
  import opened JarvisState
  import opened TurnCoordination

  /** What of the bridge's output reaches the adapter: all of it and the exit code, or
      some lines, a last one perhaps torn, and an ending that is not a clean exit. */
  datatype Delivery = Whole | Broken(kept: nat, torn: Option<ErrorCode>, ending: Ending)

  function Delivered(records: seq<Record>, delivery: Delivery): seq<Line> {
    match delivery
    case Whole => Tape(records)
    case Broken(kept, torn, _) =>
      Tape(if kept <= |records| then records[..kept] else records)
      + (if torn.Some? then [Unreadable(torn.value)] else [])
  }

  lemma {:induction false} CompletionsAreText(records: seq<Record>, r: Record)
    requires r in records && r.CompletedRecord?
    ensures r in TextRecords(records)
    decreases |records|
  {
    var front := records[..|records| - 1];
    if r in front {
      CompletionsAreText(front, r);
    } else {
      assert records == front + [records[|records| - 1]];
    }
  }

  /** A completed run of events commits its whole text, and the references of its end. */
  lemma CommitOfCompleteTurn(message: Message, events: seq<RuntimeEvent>, turnId: TurnId)
    requires CompleteTurn(events, turnId) && CommittedFrom(message, events) && events[|events| - 1].delta.None?
    ensures message.role.Assistant? && message.body == EventText(events)
    ensures events[|events| - 1].kind.TurnCompleted? && message.refs == events[|events| - 1].refs
  {
    hide EventText, Unique, RuntimeEvent.Valid;
    var k :| 0 <= k < |events| && CommitsAt(message, events, k);
    assert IsTerminal(events[k].kind);
    PresentedAreUnique(events[k]);
    TextBeforeEnd(events);
  }

  lemma PresentedAreUnique(event: RuntimeEvent)
    requires event.Valid() && event.kind.TurnCompleted?
    ensures Unique(event.refs) == event.refs
  {
    hide IsCanonicalRef;
    UniqueOfDistinct(event.refs);
  }

  lemma TextBeforeEnd(events: seq<RuntimeEvent>)
    requires events != [] && events[|events| - 1].delta.None?
    ensures EventText(events[..|events| - 1]) == EventText(events)
  {
    hide EventText;
    var n := |events| - 1;
    EventTextAppend(events[..n], events[n]);
    assert events == events[..n] + [events[n]];
    assert EventText(events[..n]) + "" == EventText(events[..n]);
  }

  /** What the adapter read of a completed answer is that answer, stripped, with its references. */
  lemma CompletionRead(records: seq<Record>, final: string, lower: char -> char, refs: seq<string>, x: seq<string>)
    requires TextRecords(records) == FullText(final, lower, refs) && CompletedRecord(x) in Records(Tape(records))
    ensures x == refs && RecordText(Records(Tape(records))) == Strip(final, false, lower)
  {
    hide TextRecords, RecordText, Strip, Slices;
    RecordsOfTape(records);
    CompletionsAreText(records, CompletedRecord(x));
    CompleteRecordsText(records, final, lower, refs);
  }

  // ----- Codes -------------------------------------------------------------------------

  /** Not every code the adapter takes over is one the store takes. */
  lemma UnderscoreCodeRefused(foreign: char -> bool)
    ensures SanitizeErrorCode(Some("_x"), foreign) == Reported("_x") && !StorableCode(Reported("_x"))
  {
  }

  lemma AccentedCodeRefused(foreign: char -> bool)
    requires foreign('\U{00E9}')
    ensures SanitizeErrorCode(Some("a\U{00E9}"), foreign) == Reported("a\U{00E9}")
    ensures !StorableCode(Reported("a\U{00E9}"))
  {
    assert "a\U{00E9}"[1] == '\U{00E9}';
  }

  /** It is refused exactly if the adapter takes it over as it is and it starts with an
      underscore or has a letter or digit beyond ASCII. */
  lemma RefusedCodeExactlyWhen(code: Option<string>, foreign: char -> bool)
    ensures !StorableCode(SanitizeErrorCode(code, foreign)) <==>
      && code.Some? && 1 <= |code.value| <= 64
      && (forall i :: 0 <= i < |code.value| ==> PlainCodeChar(code.value[i], foreign))
      && (code.value[0] == '_' || exists i :: 0 <= i < |code.value| && code.value[i] as int >= 0x80)
  {
  }

  // ----- The whole turn ------------------------------------------------------------------

  /** The run reports exactly this answer: finished, visible, and nothing else. */
  ghost predicate ReportsAnswer(
    events: seq<RuntimeEvent>, answer: Answer, lower: char -> char, refs: seq<string>)
    requires events != []
  {
    && Shown(answer, lower) && EventText(events) == Strip(answer.final.value, false, lower)
    && events[|events| - 1].refs == refs
  }

  /** What may keep a shown answer from being reported, beside its length. */
  datatype Luck = Luck(writesSucceed: bool, cancelRequested: bool, cancelledLater: bool)

  lemma NoText()
    ensures TextRecords([]) == []
  {
  }

  /** The bridge process: its stream from the first record on, and its exit code. */
  method RunProcess(answer: Answer, luck: Luck, lower: char -> char, refs: seq<string>)
    returns (records: seq<Record>, exitCode: int, ghost worked: Telemetry)
    requires luck.cancelRequested ==> luck.cancelledLater
    ensures exitCode == 0 && !EndsOtherwise(records) ==>
      && Shown(answer, lower) && TextRecords(records) == FullText(answer.final.value, lower, refs)
      && Followable(worked) && records == worked.records + [CompletedRecord(refs)]
    ensures luck.writesSucceed && !luck.cancelRequested && Shown(answer, lower) ==> exitCode == 0 && !EndsOtherwise(records)
  {
    hide TextRecords, Strip, Slices, Followable, EndsOtherwise;
    var writer := new ProtocolWriter(luck.writesSucceed);
    NoText();
    TextRecordsAppend([], Ready);
    writer.Write(Ready);
    assert [] + [Ready] == [Ready];
    var telemetry := new ToolTelemetry(writer);
    exitCode, worked := Answered(telemetry, answer, luck.cancelRequested, luck.cancelledLater, lower, refs);
    records := writer.records;
  }

  /** Bridge and adapter: a run of events that ends completed reports the whole answer; and
      an answer that is shown and fits is reported, when nothing breaks or cancels the turn. */
  method RunBridge(
    hermes: HermesTurn, answer: Answer, luck: Luck, delivery: Delivery, lower: char -> char, calls: seq<ResourceResults.Call>)
    requires hermes.Running() && hermes.queue == [] && hermes.terminalEvent.None?
    requires delivery.Broken? ==> delivery.ending != EndOfOutput(0)
    requires luck.cancelRequested ==> luck.cancelledLater
    modifies hermes
    ensures CompleteTurn(hermes.queue, hermes.turnId) && hermes.queue[|hermes.queue| - 1].delta.None?
    ensures hermes.queue[|hermes.queue| - 1].kind.TurnCompleted? ==>
      delivery.Whole? && ReportsAnswer(hermes.queue, answer, lower, ResourceResults.Play(calls).snapshot)
    ensures
      && luck.writesSucceed && !luck.cancelRequested && delivery.Whole? && !old(hermes.cancelRequested)
      && Shown(answer, lower) && Utf8Length(Strip(answer.final.value, false, lower)) <= hermes.maxVisibleBytes ==>
      hermes.queue[|hermes.queue| - 1].kind.TurnCompleted?
  {
    hide TextRecords, RecordText, EventText, Records, Digest, Strip, Slices, ReportsEnd, HermesTurn.Running;
    hide Utf8Length, Followable, EndsOtherwise, ResourceResults.Play, ValidRefs, Tape;
    ResourceResults.EverySchedule(calls);
    var refs := ResourceResults.Play(calls).snapshot;
    var records, exitCode;
    ghost var worked;
    records, exitCode, worked := RunProcess(answer, luck, lower, refs);
    var lines := Delivered(records, delivery);
    var ending := if delivery.Whole? then EndOfOutput(exitCode) else delivery.ending;
    hermes.Run(lines, ending);
    if delivery.Whole? && exitCode == 0 {
      EndsAreReported(records);
      if !EndsOtherwise(records) {
        CompletionInText(records, answer.final.value, lower, refs);
        RecordsOfTape(records);
        ShownIsAccepted(worked, answer.final.value, lower, refs, hermes.maxVisibleBytes);
        if hermes.queue[|hermes.queue| - 1].kind.TurnCompleted? {
          CompletionRead(records, answer.final.value, lower, refs, hermes.queue[|hermes.queue| - 1].refs);
        }
      }
    }
  }

  lemma EndsAreReported(records: seq<Record>)
    ensures ReportsEnd(Tape(records)) <==> EndsOtherwise(records)
  {
    RecordsOfTape(records);
    hide Records, Tape;
    if EndsOtherwise(records) {
      var i :| 0 <= i < |records| && (records[i].FailedRecord? || records[i].CancelledRecord?);
      assert records[i] in Records(Tape(records));
    }
  }

  /** The stream of a shown answer is accepted if its text is within the output limit. */
  lemma ShownIsAccepted(worked: Telemetry, final: string, lower: char -> char, refs: seq<string>, max: nat)
    requires Followable(worked) && ValidRefs(refs)
    requires TextRecords(worked.records + [CompletedRecord(refs)]) == FullText(final, lower, refs)
    ensures Utf8Length(Strip(final, false, lower)) <= max ==>
      Digest(Tape(worked.records + [CompletedRecord(refs)]), max).Ok?
  {
    hide TextRecords, RecordText, Strip, Slices, Utf8Length, ValidRefs, Digest, Tape, Matched, OnlyWork;
    CompleteRecordsText(worked.records + [CompletedRecord(refs)], final, lower, refs);
    RecordTextAppend(worked.records, CompletedRecord(refs));
    assert RecordText(worked.records) + "" == RecordText(worked.records);
    if Utf8Length(Strip(final, false, lower)) <= max {
      CompletionAccepted(worked, max, refs);
    }
  }

  lemma {:induction false} TextIsWritten(records: seq<Record>)
    ensures forall r :: r in TextRecords(records) ==> r in records
    decreases |records|
  {
    if records != [] {
      TextIsWritten(records[..|records| - 1]);
      assert records == records[..|records| - 1] + [records[|records| - 1]];
    }
  }

  lemma CompletionInText(records: seq<Record>, final: string, lower: char -> char, refs: seq<string>)
    requires TextRecords(records) == FullText(final, lower, refs)
    ensures CompletedRecord(refs) in records
  {
    hide TextRecords, Strip, Slices;
    TextIsWritten(records);
    assert CompletedRecord(refs) in FullText(final, lower, refs);
  }

  /** Whatever the agent answers, whatever its tools present, whatever reaches the adapter
      and whenever a shutdown comes: a turn stored as completed holds exactly the
      think-stripped answer and the references of the latest presented result, and without
      a shutdown the published end agrees with the stored one. An answer that is shown
      within the output limit is stored, when nothing fails or cancels the turn. */
  method RunTurn(
    coordinator: TurnCoordinator, turnId: TurnId, active: ActiveTurn, hermes: HermesTurn,
    answer: Answer, luck: Luck, delivery: Delivery, shutdown: Shutdown,
    lower: char -> char, calls: seq<ResourceResults.Call>)
    requires coordinator.state.Valid() && active.Valid() && active.history == [] && turnId in coordinator.state.turns
    requires coordinator.state.turns[turnId].status.Running? && hermes.turnId == turnId
    requires hermes.Running() && hermes.queue == [] && hermes.terminalEvent.None?
    requires delivery.Broken? ==> delivery.ending != EndOfOutput(0)
    requires luck.cancelRequested ==> luck.cancelledLater
    modifies coordinator.state, active, hermes
    ensures coordinator.state.Valid() && turnId in coordinator.state.turns && active.Valid()
    ensures shutdown.Never? ==> Agree(coordinator.state.turns[turnId].status, active.terminal)
    ensures coordinator.state.turns[turnId].status.Completed? ==>
      && delivery.Whole? && Shown(answer, lower)
      && |coordinator.state.messages| == |old(coordinator.state.messages)| + 1
      && coordinator.state.turns[turnId].assistantMessage == Some(|old(coordinator.state.messages)|)
      && coordinator.state.messages[|old(coordinator.state.messages)|].body == Strip(answer.final.value, false, lower)
      && coordinator.state.messages[|old(coordinator.state.messages)|].refs == ResourceResults.Play(calls).snapshot
    ensures !coordinator.state.turns[turnId].status.Completed? ==>
      coordinator.state.messages == old(coordinator.state.messages)
    ensures
      && coordinator.state.reliable && shutdown.Never? && delivery.Whole? && !old(hermes.cancelRequested)
      && luck.writesSucceed && !luck.cancelRequested
      && Shown(answer, lower) && Utf8Length(Strip(answer.final.value, false, lower)) <= hermes.maxVisibleBytes ==>
      coordinator.state.turns[turnId].status.Completed?
  {
    hide TextRecords, RecordText, EventText, Records, Digest, Strip, Slices, ReportsEnd, HermesTurn.Running, CompleteTurn;
    hide CommittedFrom, JarvisStateStore.Valid, ActiveTurn.Valid, Utf8Length, ResourceResults.Play, PublishedRun;
    RunBridge(hermes, answer, luck, delivery, lower, calls);
    EndIsTerminal(hermes.queue, turnId);
    coordinator.Consume(turnId, active, hermes.queue, shutdown);
    if coordinator.state.turns[turnId].status.Completed? {
      CommitOfCompleteTurn(coordinator.state.messages[|old(coordinator.state.messages)|], hermes.queue, turnId);
    }
  }

  lemma EndIsTerminal(events: seq<RuntimeEvent>, turnId: TurnId)
    requires CompleteTurn(events, turnId)
    ensures events != [] && IsTerminal(events[|events| - 1].kind)
  {
  }
}
