/** Tool callbacks arrive on several threads. A start is recorded while the lock is
    held; a completion is taken out under the lock but recorded after it. In every
    interleaving the adapter's tool checks accept the record stream. */
module ToolTelemetry {
  import opened Prelude
  import opened RuntimeContract
  import opened HermesAdapter

  datatype RawToolId = BoolId | IntId(n: int) | TextId(text: string) | OtherId

  datatype ToolKey = IntegerKey(n: int) | StringKey(text: string)

  function PrivateToolKey(raw: RawToolId): Option<ToolKey> {
    match raw
    case IntId(n) => Some(IntegerKey(n))
    case TextId(text) => if 0 < |text| <= 256 then Some(StringKey(text)) else None
    case _ => None
  }

  datatype Operation = Operation(id: int, category: Category, capability: Capability, startedAt: int)

  function ClampDuration(ms: int): int {
    if ms < 0 then 0 else if ms > MAX_TOOL_DURATION_MS then MAX_TOOL_DURATION_MS else ms
  }

  /** One step of some thread. Times are in milliseconds. */
  datatype Step =
    | StartCall(id: RawToolId, category: Category, capability: Capability, now: int)
    | CompleteLocked(id: RawToolId, now: int)
    | CompleteWrite(pick: nat)
    | OtherRecord(record: Record)

  /** The adapter holds this operation as started and not completed. */
  predicate Awaits(st: Intake, id: int, category: Category, capability: Capability) {
    id in st.active && st.active[id] == (category, capability)
  }

  function Tape(records: seq<Record>): (lines: seq<Line>)
    ensures |lines| == |records|
    ensures forall i :: 0 <= i < |records| ==> lines[i] == Readable(records[i])
  {
    seq(|records|, i requires 0 <= i < |records| => Readable(records[i]))
  }

  lemma TapeAppend(records: seq<Record>, r: Record, max: nat)
    ensures Digest(Tape(records + [r]), max) == DigestLine(Digest(Tape(records), max), Readable(r), max)
  {
    assert Tape(records + [r])[..|records|] == Tape(records);
  }

  lemma AcceptStart(d: Result<Intake, ErrorCode>, id: int, category: Category, capability: Capability, max: nat)
    requires 1 <= id <= MAX_TOOL_OPERATIONS
    ensures var r := DigestLine(d, Readable(ToolStartRecord(id, category, capability)), max);
      && (d.Err? ==> r == d)
      && (d.Ok? && d.value.ready && id == d.value.lastOperation + 1 && id !in d.value.active ==>
            r == Ok(d.value.(lastOperation := id, active := d.value.active[id := (category, capability)])))
  {
  }

  /** The adapter, having read what is written, expects exactly what is outstanding. */
  ghost predicate Expects(st: Intake, next: int, operations: map<ToolKey, Operation>, unwritten: seq<Record>) {
    && st.ready && st.lastOperation == next
    && (forall k :: k in operations ==> Awaits(st, operations[k].id, operations[k].category, operations[k].capability))
    && (forall i :: 0 <= i < |unwritten| && unwritten[i].ToolDoneRecord? ==>
          Awaits(st, unwritten[i].operationId, unwritten[i].category, unwritten[i].capability))
    && (forall id :: id in st.active ==> id <= next)
  }

  lemma ExpectsNext(st: Intake, next: int, operations: map<ToolKey, Operation>, unwritten: seq<Record>)
    requires Expects(st, next, operations, unwritten)
    ensures st.ready && st.lastOperation == next && next + 1 !in st.active
  {
  }

  lemma StartExpected(st: Intake, operations: map<ToolKey, Operation>, key: ToolKey, op: Operation, unwritten: seq<Record>)
    requires Expects(st, op.id - 1, operations, unwritten) && key !in operations
    ensures Expects(st.(lastOperation := op.id, active := st.active[op.id := (op.category, op.capability)]),
                    op.id, operations[key := op], unwritten)
  {
    var st' := st.(lastOperation := op.id, active := st.active[op.id := (op.category, op.capability)]);
    forall k | k in operations ensures Awaits(st', operations[k].id, operations[k].category, operations[k].capability) {
      assert Awaits(st, operations[k].id, operations[k].category, operations[k].capability);
    }
  }

  /** Every operation, in the table or taken out, has its own number. */
  ghost predicate WellNumbered(next: int, operations: map<ToolKey, Operation>, unwritten: seq<Record>) {
    && 0 <= next <= MAX_TOOL_OPERATIONS
    && (forall k :: k in operations ==> 1 <= operations[k].id <= next)
    && (forall k, l :: k in operations && l in operations && operations[k].id == operations[l].id ==> k == l)
    && (forall i :: 0 <= i < |unwritten| ==>
          unwritten[i].ToolDoneRecord? && 1 <= unwritten[i].operationId <= next
          && 0 <= unwritten[i].durationMs <= MAX_TOOL_DURATION_MS)
    && (forall i, j :: 0 <= i < j < |unwritten| ==> unwritten[i].operationId != unwritten[j].operationId)
    && (forall k, i :: k in operations && 0 <= i < |unwritten| ==> operations[k].id != unwritten[i].operationId)
  }

  /** Writing one outstanding completion: the adapter takes it, and expects the others. */
  lemma DoneExpected(
    st: Intake, next: int, operations: map<ToolKey, Operation>, unwritten: seq<Record>, pick: nat, max: nat)
    requires WellNumbered(next, operations, unwritten) && Expects(st, next, operations, unwritten) && pick < |unwritten|
    ensures var r := DigestLine(Ok(st), Readable(unwritten[pick]), max);
      r.Ok? && Expects(r.value, next, operations, unwritten[..pick] + unwritten[pick + 1..])
  {
    var id := unwritten[pick].operationId;
    assert Awaits(st, id, unwritten[pick].category, unwritten[pick].capability);
    var st', rest := st.(active := st.active - {id}), unwritten[..pick] + unwritten[pick + 1..];
    forall k | k in operations ensures Awaits(st', operations[k].id, operations[k].category, operations[k].capability) {
      assert Awaits(st, operations[k].id, operations[k].category, operations[k].capability);
    }
    forall i | 0 <= i < |rest| ensures Awaits(st', rest[i].operationId, rest[i].category, rest[i].capability) {
      var j := if i < pick then i else i + 1;
      assert rest[i] == unwritten[j];
      assert Awaits(st, unwritten[j].operationId, unwritten[j].category, unwritten[j].capability);
    }
  }

  lemma FailedStays(d: Result<Intake, ErrorCode>, line: Line, max: nat)
    ensures d.Err? ==> DigestLine(d, line, max) == d
  {
  }

  lemma DropNumbered(next: int, operations: map<ToolKey, Operation>, unwritten: seq<Record>, pick: nat)
    requires WellNumbered(next, operations, unwritten) && pick < |unwritten|
    ensures WellNumbered(next, operations, unwritten[..pick] + unwritten[pick + 1..])
  {
  }

  // ----- The steps, as values ------------------------------------------------------------

  /** `unwritten` holds the completions taken out under the lock and not yet written, one
      per thread; `records` is everything on the protocol stream. */
  datatype Telemetry = Telemetry(
    next: int, operations: map<ToolKey, Operation>, unwritten: seq<Record>, records: seq<Record>)

  const NOTHING_YET := Telemetry(0, map[], [], [Ready])

  /** `start`, under the lock: a number, an entry, a record. */
  function Started(t: Telemetry, id: RawToolId, category: Category, capability: Capability, now: int): Telemetry {
    var key := PrivateToolKey(id);
    if key.None? || key.value in t.operations || t.next >= MAX_TOOL_OPERATIONS then t
    else
      t.(next := t.next + 1, operations := t.operations[key.value := Operation(t.next + 1, category, capability, now)],
         records := t.records + [ToolStartRecord(t.next + 1, category, capability)])
  }

  /** The half of `complete` that holds the lock. */
  function Taken(t: Telemetry, id: RawToolId, now: int): Telemetry {
    var key := PrivateToolKey(id);
    if key.None? || key.value !in t.operations then t
    else
      var op := t.operations[key.value];
      t.(operations := t.operations - {key.value},
         unwritten := t.unwritten
           + [ToolDoneRecord(op.id, op.category, op.capability, ClampDuration(now - op.startedAt))])
  }

  /** The other half, after the lock is released: any thread may come first. */
  function Written(t: Telemetry, pick: nat): Telemetry {
    if pick >= |t.unwritten| then t
    else t.(unwritten := t.unwritten[..pick] + t.unwritten[pick + 1..], records := t.records + [t.unwritten[pick]])
  }

  function Next(t: Telemetry, step: Step): Telemetry {
    match step
    case StartCall(id, category, capability, now) => Started(t, id, category, capability, now)
    case CompleteLocked(id, now) => Taken(t, id, now)
    case CompleteWrite(pick) => Written(t, pick)
    case OtherRecord(r) => if r.PhaseRecord? || r.Delta? then t.(records := t.records + [r]) else t
  }

  function Play(schedule: seq<Step>): Telemetry
    decreases |schedule|
  {
    if schedule == [] then NOTHING_YET else Next(Play(schedule[..|schedule| - 1]), schedule[|schedule| - 1])
  }

  /** Unless the output limit was hit, the adapter accepted everything written. */
  ghost predicate Matched(t: Telemetry, max: nat) {
    WellNumbered(t.next, t.operations, t.unwritten) && Followed(Digest(Tape(t.records), max), t)
  }

  ghost predicate Followed(d: Result<Intake, ErrorCode>, t: Telemetry) {
    if d.Ok? then Expects(d.value, t.next, t.operations, t.unwritten) else d.error == OutputTooLarge
  }

  lemma StartedNumbered(t: Telemetry, id: RawToolId, category: Category, capability: Capability, now: int)
    requires WellNumbered(t.next, t.operations, t.unwritten)
    ensures var v := Started(t, id, category, capability, now); WellNumbered(v.next, v.operations, v.unwritten)
  {
  }

  lemma StartedKeeps(t: Telemetry, id: RawToolId, category: Category, capability: Capability, now: int, max: nat)
    requires Matched(t, max)
    ensures Matched(Started(t, id, category, capability, now), max)
  {
    hide Digest, Tape, DigestLine, Expects, PrivateToolKey;
    var v := Started(t, id, category, capability, now);
    if v != t {
      var key, before := PrivateToolKey(id).value, Digest(Tape(t.records), max);
      StartedNumbered(t, id, category, capability, now);
      TapeAppend(t.records, ToolStartRecord(v.next, category, capability), max);
      AcceptStart(before, v.next, category, capability, max);
      if before.Ok? {
        ExpectsNext(before.value, t.next, t.operations, t.unwritten);
        StartExpected(before.value, t.operations, key, v.operations[key], t.unwritten);
      }
    }
  }

  lemma TakenKeeps(t: Telemetry, id: RawToolId, now: int, max: nat)
    requires Matched(t, max)
    ensures Matched(Taken(t, id, now), max)
  {
    hide Digest, Tape, PrivateToolKey;
  }

  lemma WrittenKeeps(t: Telemetry, pick: nat, max: nat)
    requires Matched(t, max)
    ensures Matched(Written(t, pick), max)
  {
    hide Digest, Tape, DigestLine, Expects, WellNumbered;
    if pick < |t.unwritten| {
      var before := Digest(Tape(t.records), max);
      TapeAppend(t.records, t.unwritten[pick], max);
      FailedStays(before, Readable(t.unwritten[pick]), max);
      if before.Ok? {
        DoneExpected(before.value, t.next, t.operations, t.unwritten, pick, max);
      }
      DropNumbered(t.next, t.operations, t.unwritten, pick);
    }
  }

  lemma OtherKeeps(t: Telemetry, r: Record, max: nat)
    requires Matched(t, max) && (r.PhaseRecord? || r.Delta?)
    ensures Matched(t.(records := t.records + [r]), max)
  {
    hide Digest, Tape;
    TapeAppend(t.records, r, max);
  }

  /** Any schedule of the threads' steps produces a stream whose tool records the adapter
      never rejects: it accepts all of it exactly when the text is within the output limit. */
  lemma {:induction false} AnyInterleaving(schedule: seq<Step>, max: nat)
    ensures Matched(Play(schedule), max)
    ensures
      var t := Play(schedule);
      Digest(Tape(t.records), max).Ok? <==> Utf8Length(RecordText(t.records)) <= max
    ensures var d := Digest(Tape(Play(schedule).records), max); d.Err? ==> d.error == OutputTooLarge
    decreases |schedule|
  {
    hide Digest, RecordText, Utf8Length;
    if schedule == [] {
      TapeAppend([], Ready, max);
      NothingDigested(max);
      assert [] + [Ready] == [Ready];
    } else {
      AnyInterleaving(schedule[..|schedule| - 1], max);
      StepKeeps(Play(schedule[..|schedule| - 1]), schedule[|schedule| - 1], max);
    }
    AcceptedExactlyWhen(Play(schedule), max);
  }

  lemma NothingDigested(max: nat)
    ensures Digest(Tape([]), max) == Ok(NO_INTAKE)
  {
  }

  lemma StepKeeps(t: Telemetry, step: Step, max: nat)
    requires Matched(t, max)
    ensures Matched(Next(t, step), max)
  {
    hide Matched, Started, Taken, Written;
    match step {
      case StartCall(id, category, capability, now) => StartedKeeps(t, id, category, capability, now, max);
      case CompleteLocked(id, now) => TakenKeeps(t, id, now, max);
      case CompleteWrite(pick) => WrittenKeeps(t, pick, max);
      case OtherRecord(r) =>
        if r.PhaseRecord? || r.Delta? {
          OtherKeeps(t, r, max);
        }
    }
  }

  // ----- What the adapter makes of it ------------------------------------------------------

  /** What the bridge writes while the agent works and answers. */
  predicate IsWork(r: Record) {
    r.Ready? || r.PhaseRecord? || r.ToolStartRecord? || r.ToolDoneRecord? || r.Delta?
  }

  ghost predicate OnlyWork(t: Telemetry) {
    && (forall i :: 0 <= i < |t.records| ==> IsWork(t.records[i]))
    && (forall i :: 0 <= i < |t.unwritten| ==> t.unwritten[i].ToolDoneRecord?)
  }

  lemma {:induction false} RecordsOfTape(records: seq<Record>)
    ensures Records(Tape(records)) == records
    decreases |records|
  {
    if records != [] {
      RecordsOfTape(records[..|records| - 1]);
      assert Tape(records)[..|records| - 1] == Tape(records[..|records| - 1]);
    }
  }

  lemma StepOnlyWorks(t: Telemetry, step: Step)
    requires OnlyWork(t)
    ensures OnlyWork(Next(t, step))
  {
    hide PrivateToolKey;
  }

  /** What every thread may rely on, and every step keeps: the adapter follows the stream,
      whatever its output limit. */
  ghost predicate Followable(t: Telemetry) {
    OnlyWork(t) && forall max: nat :: Matched(t, max)
  }

  lemma StepFollowable(t: Telemetry, step: Step)
    requires Followable(t)
    ensures Followable(Next(t, step))
  {
    hide Matched, OnlyWork, Next;
    StepOnlyWorks(t, step);
    forall max: nat ensures Matched(Next(t, step), max) {
      StepKeeps(t, step, max);
    }
  }

  /** Of a stream of work the adapter accepts all, exactly when its text is within bounds. */
  lemma AcceptedExactlyWhen(t: Telemetry, max: nat)
    requires Matched(t, max)
    ensures Digest(Tape(t.records), max).Ok? <==> Utf8Length(RecordText(t.records)) <= max
  {
    hide Digest, Expects, WellNumbered, Tape, RecordText, Utf8Length;
    RecordsOfTape(t.records);
    DigestMeasures(Tape(t.records), max);
  }

  /** The completion that follows is accepted too, and is the only reported end. */
  lemma CompletionAccepted(t: Telemetry, max: nat, refs: seq<string>)
    requires Matched(t, max) && OnlyWork(t) && ValidRefs(refs) && Utf8Length(RecordText(t.records)) <= max
    ensures
      var lines := Tape(t.records + [CompletedRecord(refs)]);
      Digest(lines, max).Ok? && !ReportsEnd(lines) && CompletedRecord(refs) in Records(lines)
  {
    hide Digest, Expects, WellNumbered, Tape, RecordText, Utf8Length, ValidRefs;
    AcceptedExactlyWhen(t, max);
    RecordsOfTape(t.records);
    RecordsOfTape(t.records + [CompletedRecord(refs)]);
    TapeAppend(t.records, CompletedRecord(refs), max);
    NoneCompleted(t, max);
    ReadyFirst(t, max);
    AcceptCompletion(Digest(Tape(t.records), max).value, refs, max);
  }

  lemma ReadyFirst(t: Telemetry, max: nat)
    requires Matched(t, max) && Digest(Tape(t.records), max).Ok?
    ensures Digest(Tape(t.records), max).value.ready
  {
    hide Digest, WellNumbered, Tape;
  }

  lemma NoneCompleted(t: Telemetry, max: nat)
    requires OnlyWork(t) && Digest(Tape(t.records), max).Ok?
    ensures Digest(Tape(t.records), max).value.completed.None?
  {
    hide Digest, Tape, ValidRefs;
    RecordsOfTape(t.records);
    CompletionIsRecord(Tape(t.records), max);
  }

  lemma AcceptCompletion(st: Intake, refs: seq<string>, max: nat)
    requires st.ready && st.completed.None? && ValidRefs(refs)
    ensures DigestLine(Ok(st), Readable(CompletedRecord(refs)), max).Ok?
  {
    hide ValidRefs;
  }

  // ----- The objects ----------------------------------------------------------------------

  /** The protocol stream all threads write to. */
  class ProtocolWriter {
    /** When false, a record of the main thread may fail to be written. */
    const reliable: bool
    var records: seq<Record>

    constructor (reliable: bool)
      ensures records == [] && this.reliable == reliable
    {
      records, this.reliable := [], reliable;
    }

    method Emit(r: Record) returns (raised: bool)
      modifies this
      ensures records == if raised then old(records) else old(records) + [r]
      ensures reliable ==> !raised
    {
      raised := *;
      raised := raised && !reliable;
      if !raised {
        records := records + [r];
      }
    }

    method Write(r: Record)
      modifies this
      ensures records == old(records) + [r]
    {
      records := records + [r];
    }
  }

  class ToolTelemetry {
    const writer: ProtocolWriter
    var nextOperationId: int
    var operations: map<ToolKey, Operation>
    var unwritten: seq<Record>

    function Value(): Telemetry
      reads this, writer
    {
      Telemetry(nextOperationId, operations, unwritten, writer.records)
    }

    /** Whatever the adapter's output limit, it follows what has been written. */
    ghost predicate Valid()
      reads this, writer
    {
      Followable(Value())
    }

    constructor (writer: ProtocolWriter)
      requires writer.records == [Ready]
      ensures Valid() && this.writer == writer
    {
      this.writer, nextOperationId, operations, unwritten := writer, 0, map[], [];
      new;
      assert Value() == Play([]);
      forall max: nat ensures Matched(Value(), max) {
        AnyInterleaving([], max);
      }
    }

    /** `start`, under the lock: a number, an entry, a record. */
    method Start(id: RawToolId, category: Category, capability: Capability, now: int)
      requires Valid()
      modifies this, writer
      ensures Valid() && Value() == Next(old(Value()), StartCall(id, category, capability, now))
    {
      hide Followable, PrivateToolKey;
      ghost var before := Value();
      var key := PrivateToolKey(id);
      if key.Some? && key.value !in operations && nextOperationId < MAX_TOOL_OPERATIONS {
        nextOperationId := nextOperationId + 1;
        operations := operations[key.value := Operation(nextOperationId, category, capability, now)];
        writer.Write(ToolStartRecord(nextOperationId, category, capability));
      }
      StepFollowable(before, StartCall(id, category, capability, now));
    }

    /** The half of `complete` that holds the lock. */
    method TakeCompletion(id: RawToolId, now: int)
      requires Valid()
      modifies this, writer
      ensures Valid() && Value() == Next(old(Value()), CompleteLocked(id, now))
    {
      hide Followable, PrivateToolKey;
      ghost var before := Value();
      var key := PrivateToolKey(id);
      if key.Some? && key.value in operations {
        var op := operations[key.value];
        operations := operations - {key.value};
        unwritten := unwritten + [ToolDoneRecord(op.id, op.category, op.capability, ClampDuration(now - op.startedAt))];
      }
      StepFollowable(before, CompleteLocked(id, now));
    }

    /** The other half, after the lock is released: any thread may come first. */
    method WriteCompletion(pick: nat)
      requires Valid()
      modifies this, writer
      ensures Valid() && Value() == Next(old(Value()), CompleteWrite(pick))
    {
      hide Followable;
      ghost var before := Value();
      if pick < |unwritten| {
        writer.Write(unwritten[pick]);
        unwritten := unwritten[..pick] + unwritten[pick + 1..];
      }
      StepFollowable(before, CompleteWrite(pick));
    }

    /** A phase or a text record of the main thread. It may fail to be written. */
    method EmitWork(r: Record) returns (raised: bool)
      requires Valid() && (r.PhaseRecord? || r.Delta?)
      modifies this, writer
      ensures Valid() && Value() == if raised then old(Value()) else Next(old(Value()), OtherRecord(r))
      ensures writer.records == if raised then old(writer.records) else old(writer.records) + [r]
      ensures writer.reliable ==> !raised
    {
      hide Followable;
      ghost var before := Value();
      raised := writer.Emit(r);
      if !raised {
        StepFollowable(before, OtherRecord(r));
      }
    }
  }
}
