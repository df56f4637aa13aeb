/** Which record streams the adapter accepts, told on the records themselves. */
module AdapterChecks {
  import opened Prelude
  import opened RuntimeContract
  import opened HermesAdapter
  import opened ToolTelemetry

  // ----- One record after the others -------------------------------------------------

  function Starts(records: seq<Record>): nat
    decreases |records|
  {
    if records == [] then 0
    else Starts(records[..|records| - 1]) + if records[|records| - 1].ToolStartRecord? then 1 else 0
  }

  /** Started under these names and not yet done. */
  predicate Pending(before: seq<Record>, id: int, category: Category, capability: Capability) {
    && ToolStartRecord(id, category, capability) in before
    && forall r :: r in before && r.ToolDoneRecord? ==> r.operationId != id
  }

  /** "pdi:resource:" and 36 characters: lower-case hexadecimal, hyphens where they belong. */
  predicate IsReference(ref: string) {
    && |ref| == 49 && ref[..13] == "pdi:resource:"
    && forall i :: 13 <= i < 49 ==> ref[i] in (if i == 21 || i == 26 || i == 31 || i == 36 then "-" else "0123456789abcdef")
  }

  /** What a record's own values may be. */
  predicate WithinRange(r: Record) {
    && (r.ToolStartRecord? || r.ToolDoneRecord? ==> 1 <= r.operationId <= 32)
    && (r.ToolDoneRecord? ==> 0 <= r.durationMs <= 600_000)
    && (r.CompletedRecord? ==>
          && |r.refs| <= 8 && (forall ref :: ref in r.refs ==> IsReference(ref))
          && forall i, j :: 0 <= i < j < |r.refs| ==> r.refs[i] != r.refs[j])
  }

  /** Readiness comes first and once; operations start under the numbers 1, 2, 3 and on,
      and end once, under the names they started with; there is one completion at most,
      and the text stays within the limit. */
  predicate MayFollow(before: seq<Record>, r: Record, max: nat) {
    && WithinRange(r) && (r == Ready <==> before == [])
    && (r.ToolStartRecord? ==> r.operationId == Starts(before) + 1)
    && (r.ToolDoneRecord? ==> Pending(before, r.operationId, r.category, r.capability))
    && (r.CompletedRecord? ==> forall b :: b in before ==> !b.CompletedRecord?)
    && (r.Delta? ==> Utf8Length(RecordText(before) + r.text) <= max)
  }

  predicate Orderly(records: seq<Record>, max: nat) {
    forall i :: 0 <= i < |records| ==> MayFollow(records[..i], records[i], max)
  }

  // ----- The adapter's memory ----------------------------------------------------------

  ghost predicate Remembers(st: Intake, records: seq<Record>) {
    && (st.ready <==> records != []) && st.lastOperation == Starts(records)
    && st.visibleBytes == Utf8Length(RecordText(records))
    && (st.completed.Some? <==> exists r :: r in records && r.CompletedRecord?)
    && (forall id :: id in st.active ==> Pending(records, id, st.active[id].0, st.active[id].1))
    && (forall r :: r in records && r.ToolStartRecord? ==> r.operationId <= Starts(records))
    && (forall r :: r in records && r.ToolDoneRecord? ==> r.operationId <= Starts(records))
    && (forall id, category, capability :: Pending(records, id, category, capability) ==> Awaits(st, id, category, capability))
  }

  lemma RangesAgree(r: Record)
    ensures WithinRange(r) <==> InBounds(r)
  {
    if r.CompletedRecord? {
      forall ref | ref in r.refs ensures IsReference(ref) <==> IsCanonicalRef(ref) {
        ReferencesAgree(ref);
      }
      hide IsReference, IsCanonicalRef;
    }
  }

  lemma ReferencesAgree(ref: string)
    ensures IsReference(ref) <==> IsCanonicalRef(ref)
  {
    if |ref| == 49 && ref[..13] == "pdi:resource:" {
      assert REF_PREFIX <= ref;
      var uuid := ref[13..];
      forall i | 0 <= i < 36
        ensures (if i in {8, 13, 18, 23} then uuid[i] == '-' else IsLowerHex(uuid[i])) <==>
          ref[i + 13] in (if i + 13 == 21 || i + 13 == 26 || i + 13 == 31 || i + 13 == 36 then "-" else "0123456789abcdef")
      {
        HexCharacter(ref[i + 13]);
      }
      if IsCanonicalRef(ref) {
        forall i | 13 <= i < 49 ensures ref[i] in (if i == 21 || i == 26 || i == 31 || i == 36 then "-" else "0123456789abcdef") {
          assert ref[i] == uuid[i - 13];
        }
      }
    }
  }

  lemma HexCharacter(c: char)
    ensures IsLowerHex(c) <==> c in "0123456789abcdef"
  {
    var digits := "0123456789abcdef";
    if IsLowerHex(c) {
      assert digits[if c <= '9' then c as int - 48 else c as int - 87] == c;
    }
  }

  // ----- One record at a time -------------------------------------------------------------

  lemma StartsAppend(records: seq<Record>, r: Record)
    ensures Starts(records + [r]) == Starts(records) + if r.ToolStartRecord? then 1 else 0
    ensures forall x :: x in records + [r] <==> x in records || x == r
  {
    assert (records + [r])[..|records|] == records;
  }

  lemma StartAgrees(st: Intake, records: seq<Record>, r: Record, max: nat)
    requires Remembers(st, records) && r.ToolStartRecord? && WithinRange(r)
    ensures Accept(st, r, max).Ok? <==> MayFollow(records, r, max)
    ensures Accept(st, r, max).Ok? ==> Remembers(Accept(st, r, max).value, records + [r])
  {
    StartsAppend(records, r);
    RecordTextAppend(records, r);
    assert RecordText(records) + "" == RecordText(records);
    hide RecordText, Utf8Length, Starts, WithinRange;
    if Accept(st, r, max).Ok? {
      StartRemembered(st, records, r);
    }
  }

  lemma StartRemembered(st: Intake, records: seq<Record>, r: Record)
    requires Remembers(st, records) && r.ToolStartRecord? && r.operationId == Starts(records) + 1 && records != []
    requires Starts(records + [r]) == Starts(records) + 1 && RecordText(records + [r]) == RecordText(records)
    requires forall x :: x in records + [r] <==> x in records || x == r
    ensures Remembers(
      st.(lastOperation := r.operationId, active := st.active[r.operationId := (r.category, r.capability)]), records + [r])
  {
    hide RecordText, Utf8Length, Starts;
    var st' := st.(lastOperation := r.operationId, active := st.active[r.operationId := (r.category, r.capability)]);
    forall id | id in st'.active ensures Pending(records + [r], id, st'.active[id].0, st'.active[id].1) {
      if id != r.operationId {
        assert Pending(records, id, st.active[id].0, st.active[id].1);
      }
    }
    forall id, category, capability | Pending(records + [r], id, category, capability)
      ensures Awaits(st', id, category, capability)
    {
      if id != r.operationId {
        assert Pending(records, id, category, capability);
        assert Awaits(st, id, category, capability);
      }
    }
  }

  lemma DoneAgrees(st: Intake, records: seq<Record>, r: Record, max: nat)
    requires Remembers(st, records) && r.ToolDoneRecord? && WithinRange(r)
    ensures Accept(st, r, max).Ok? <==> MayFollow(records, r, max)
    ensures Accept(st, r, max).Ok? ==> Remembers(Accept(st, r, max).value, records + [r])
  {
    StartsAppend(records, r);
    RecordTextAppend(records, r);
    assert RecordText(records) + "" == RecordText(records);
    hide RecordText, Utf8Length, Starts, WithinRange;
    if MayFollow(records, r, max) {
      assert Awaits(st, r.operationId, r.category, r.capability);
    }
    if Accept(st, r, max).Ok? {
      assert Pending(records, r.operationId, r.category, r.capability);
      var st' := Accept(st, r, max).value;
      forall id | id in st'.active ensures Pending(records + [r], id, st'.active[id].0, st'.active[id].1) {
        assert Pending(records, id, st.active[id].0, st.active[id].1);
      }
      forall id, category, capability | Pending(records + [r], id, category, capability)
        ensures Awaits(st', id, category, capability)
      {
        assert r in records + [r];
        assert Pending(records, id, category, capability);
        assert Awaits(st, id, category, capability);
      }
    }
  }

  lemma OtherAllowed(st: Intake, records: seq<Record>, r: Record, max: nat)
    requires Remembers(st, records) && !r.ToolStartRecord? && !r.ToolDoneRecord? && WithinRange(r)
    ensures Accept(st, r, max).Ok? <==> MayFollow(records, r, max)
  {
    Utf8Append(RecordText(records), if r.Delta? then r.text else "");
    hide RecordText, Utf8Length, Starts, WithinRange, Pending;
  }

  lemma OtherAgrees(st: Intake, records: seq<Record>, r: Record, max: nat)
    requires Remembers(st, records) && !r.ToolStartRecord? && !r.ToolDoneRecord? && WithinRange(r)
    ensures Accept(st, r, max).Ok? <==> MayFollow(records, r, max)
    ensures Accept(st, r, max).Ok? ==> Remembers(Accept(st, r, max).value, records + [r])
  {
    hide RecordText, Utf8Length, Starts, WithinRange, Pending, MayFollow;
    OtherAllowed(st, records, r, max);
    StartsAppend(records, r);
    RecordTextAppend(records, r);
    Utf8Append(RecordText(records), if r.Delta? then r.text else "");
    assert RecordText(records) + "" == RecordText(records);
    PendingAsBefore(records, r);
    if Accept(st, r, max).Ok? {
      assert r in records + [r];
    }
  }

  lemma PendingAsBefore(records: seq<Record>, r: Record)
    requires !r.ToolStartRecord? && !r.ToolDoneRecord?
    ensures forall id, category, capability ::
      Pending(records + [r], id, category, capability) <==> Pending(records, id, category, capability)
  {
    assert forall x :: x in records + [r] <==> x in records || x == r;
  }

  lemma LineAgrees(st: Intake, records: seq<Record>, r: Record, max: nat)
    requires Remembers(st, records)
    ensures var d := DigestLine(Ok(st), Readable(r), max);
      && (d.Ok? <==> MayFollow(records, r, max))
      && (d.Ok? ==> Remembers(d.value, records + [r]))
  {
    RangesAgree(r);
    hide Remembers, InBounds, WithinRange, Accept;
    if WithinRange(r) {
      if r.ToolStartRecord? {
        StartAgrees(st, records, r, max);
      } else if r.ToolDoneRecord? {
        DoneAgrees(st, records, r, max);
      } else {
        OtherAgrees(st, records, r, max);
      }
    }
  }

  /** The adapter accepts a stream of records exactly when it is orderly. */
  lemma {:induction false} OrderlyExactlyWhen(records: seq<Record>, max: nat)
    ensures Digest(Tape(records), max).Ok? <==> Orderly(records, max)
    ensures Digest(Tape(records), max).Ok? ==> Remembers(Digest(Tape(records), max).value, records)
    decreases |records|
  {
    hide Remembers, MayFollow;
    if records == [] {
      NothingRemembered();
    } else {
      var front, r := records[..|records| - 1], records[|records| - 1];
      OrderlyExactlyWhen(front, max);
      assert records == front + [r];
      TapeAppend(front, r, max);
      OrderlyAppend(front, r, max);
      FailedStays(Digest(Tape(front), max), Readable(r), max);
      hide DigestLine, Digest, Orderly;
      if Digest(Tape(front), max).Ok? {
        LineAgrees(Digest(Tape(front), max).value, front, r, max);
      }
    }
  }

  lemma NothingRemembered()
    ensures Remembers(NO_INTAKE, [])
  {
  }

  lemma OrderlyAppend(records: seq<Record>, r: Record, max: nat)
    ensures Orderly(records + [r], max) <==> Orderly(records, max) && MayFollow(records, r, max)
  {
    hide MayFollow;
    var more := records + [r];
    assert forall i :: 0 <= i < |records| ==> more[..i] == records[..i] && more[i] == records[i];
    assert more[..|records|] == records && more[|records|] == r;
  }

  // ----- What the bridge reports -----------------------------------------------------------

  /** Identifiers the bridge can tell apart: integers and short texts. */
  predicate Usable(id: RawToolId) { id.IntId? || (id.TextId? && 0 < |id.text| <= 256) }

  predicate NeverStarted(steps: seq<Step>, id: RawToolId) {
    forall step :: step in steps && step.StartCall? ==> step.id != id
  }

  predicate NeverTaken(steps: seq<Step>, id: RawToolId) {
    forall step :: step in steps && step.CompleteLocked? ==> step.id != id
  }

  lemma StepPlayed(steps: seq<Step>, step: Step)
    ensures Play(steps + [step]) == Next(Play(steps), step)
  {
    assert (steps + [step])[..|steps|] == steps;
  }

  lemma {:induction false} NotInTable(steps: seq<Step>, id: RawToolId)
    requires Usable(id) && NeverStarted(steps, id)
    ensures PrivateToolKey(id).Some? && PrivateToolKey(id).value !in Play(steps).operations
    decreases |steps|
  {
    if steps != [] {
      NotInTable(steps[..|steps| - 1], id);
      assert steps[|steps| - 1] in steps;
    }
  }

  lemma {:induction false} StaysInTable(before: seq<Step>, between: seq<Step>, id: RawToolId)
    requires Usable(id) && PrivateToolKey(id).value in Play(before).operations && NeverTaken(between, id)
    ensures var t, key := Play(before + between), PrivateToolKey(id).value;
      && key in t.operations && t.operations[key] == Play(before).operations[key]
      && Play(before).records <= t.records
    decreases |between|
  {
    if between == [] {
      assert before + between == before;
    } else {
      var front, step := between[..|between| - 1], between[|between| - 1];
      StaysInTable(before, front, id);
      assert before + between == (before + front) + [step];
      StepPlayed(before + front, step);
      assert step in between;
      hide Play;
    }
  }

  /** Every operation that starts below the bound is reported under the next number, and
      when it completes, under the same number and names, with the time it took, cut to
      between nothing and ten minutes, whatever other threads do in between. */
  lemma OperationsAreReported(
    before: seq<Step>, id: RawToolId, category: Category, capability: Capability, began: int, between: seq<Step>, ended: int)
    requires Usable(id) && NeverStarted(before, id) && Play(before).next < 32 && NeverTaken(between, id)
    ensures
      var number, records := Play(before).next + 1, Play(before).records;
      var t := Play(before + [StartCall(id, category, capability, began)] + between + [CompleteLocked(id, ended)]);
      var took := if ended < began then 0 else if ended - began > 600_000 then 600_000 else ended - began;
      && records + [ToolStartRecord(number, category, capability)] <= t.records
      && t.unwritten != [] && t.unwritten[|t.unwritten| - 1] == ToolDoneRecord(number, category, capability, took)
  {
    NotInTable(before, id);
    var started := before + [StartCall(id, category, capability, began)];
    StepPlayed(before, StartCall(id, category, capability, began));
    StaysInTable(started, between, id);
    StepPlayed(started + between, CompleteLocked(id, ended));
    hide Play, NeverStarted, NeverTaken;
  }
}
