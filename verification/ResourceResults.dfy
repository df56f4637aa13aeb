/** The collector of presented resources: which tool result's references the completion
    record carries, under any interleaving of the threads that run tools. */
module ResourceResults {
  import opened Prelude
  import opened RuntimeContract
  import opened ToolTelemetry

  datatype PresentationTool = ListRecent | SearchTool | Retrieve | RichRetrieve

  /** A tool result: not of the fixed schema, or rows, each with the text at the schema's
      path, if there is one. */
  datatype ToolResult = Unreadable | Rows(values: seq<Option<string>>)

  // ----- The references of one result -----------------------------------------------------

  /** The canonical references of the rows, first occurrences, in order. */
  function References(values: seq<Option<string>>): (refs: seq<string>)
    ensures forall r :: r in refs ==> IsCanonicalRef(r)
    ensures forall i, j :: 0 <= i < j < |refs| ==> refs[i] != refs[j]
    decreases |values|
  {
    if values == [] then []
    else
      var before, last := References(values[..|values| - 1]), values[|values| - 1];
      if last.Some? && IsCanonicalRef(last.value) && last.value !in before then before + [last.value] else before
  }

  function FirstOf(refs: seq<string>): seq<string> {
    if |refs| <= MAX_PRESENTED then refs else refs[..MAX_PRESENTED]
  }

  lemma {:induction false} ReferencesGrow(values: seq<Option<string>>, i: nat)
    requires i <= |values|
    ensures References(values[..i]) <= References(values)
    decreases |values| - i
  {
    if i == |values| {
      assert values[..i] == values;
    } else {
      assert values[..i + 1][..i] == values[..i];
      ReferencesGrow(values, i + 1);
    }
  }

  /** `_extract_presentation_refs`, once the rows are found. */
  method ExtractRefs(values: seq<Option<string>>) returns (refs: seq<string>)
    ensures refs == FirstOf(References(values)) && ValidRefs(refs)
  {
    hide IsCanonicalRef;
    refs := [];
    var seen: set<string> := {};
    for i := 0 to |values|
      invariant refs == References(values[..i]) && |refs| < MAX_PRESENTED
      invariant forall r :: r in seen <==> r in refs
    {
      assert values[..i + 1][..i] == values[..i];
      ReferencesGrow(values, i + 1);
      var value := values[i];
      if value.Some? && IsCanonicalRef(value.value) && value.value !in seen {
        seen := seen + {value.value};
        refs := refs + [value.value];
        if |refs| == MAX_PRESENTED {
          return;
        }
      }
    }
    assert values[..|values|] == values;
  }

  // ----- Steps of the threads ---------------------------------------------------------------

  /** A result with the number its operation was started under. */
  datatype Numbered = Numbered(ordinal: nat, refs: seq<string>)

  /** `taken` are results between the two locked halves of a completion; `published` are
      those that have been offered as the snapshot, in that order. */
  datatype Collector = Collector(
    next: nat, operations: map<ToolKey, (nat, PresentationTool)>, taken: seq<Numbered>,
    snapshotOrdinal: nat, snapshot: seq<string>, published: seq<Numbered>)

  const NOTHING := Collector(0, map[], [], 0, [], [])

  datatype Call =
    | StartResult(id: RawToolId, tool: Option<PresentationTool>)
    | TakeResult(id: RawToolId, tool: Option<PresentationTool>, result: ToolResult)
    | PublishResult(pick: nat)

  function Started(c: Collector, key: ToolKey, tool: PresentationTool): Collector {
    if key in c.operations then c
    else c.(next := c.next + 1, operations := c.operations[key := (c.next + 1, tool)])
  }

  function Taken(c: Collector, key: ToolKey, tool: Option<PresentationTool>, result: ToolResult): Collector {
    if key !in c.operations then c
    else
      var left := c.(operations := c.operations - {key});
      if tool != Some(c.operations[key].1) || result.Unreadable? then left
      else left.(taken := c.taken + [Numbered(c.operations[key].0, FirstOf(References(result.values)))])
  }

  function Published(c: Collector, pick: nat): Collector
    requires pick < |c.taken|
  {
    var r := c.taken[pick];
    var left := c.(taken := c.taken[..pick] + c.taken[pick + 1..], published := c.published + [r]);
    if r.ordinal > c.snapshotOrdinal then left.(snapshotOrdinal := r.ordinal, snapshot := r.refs) else left
  }

  function Next(c: Collector, call: Call): Collector {
    match call
    case StartResult(id, tool) =>
      if PrivateToolKey(id).None? || tool.None? then c else Started(c, PrivateToolKey(id).value, tool.value)
    case TakeResult(id, tool, result) =>
      if PrivateToolKey(id).None? then c else Taken(c, PrivateToolKey(id).value, tool, result)
    case PublishResult(pick) => if pick >= |c.taken| then c else Published(c, pick)
  }

  function Play(calls: seq<Call>): Collector
    decreases |calls|
  {
    if calls == [] then NOTHING else Next(Play(calls[..|calls| - 1]), calls[|calls| - 1])
  }

  /** Numbers are given once; the snapshot is the published result of the highest number. */
  ghost predicate Invariant(c: Collector) {
    && Distinct(c) && (forall r :: r in c.taken || r in c.published ==> 0 < r.ordinal <= c.next && ValidRefs(r.refs))
    && Newest(c.published, c.snapshotOrdinal, c.snapshot)
  }

  ghost predicate Distinct(c: Collector) {
    && (forall k :: k in c.operations ==> 0 < c.operations[k].0 <= c.next)
    && (forall k, l :: k in c.operations && l in c.operations && c.operations[k].0 == c.operations[l].0 ==> k == l)
    && (forall i, j :: 0 <= i < j < |c.taken| ==> c.taken[i].ordinal != c.taken[j].ordinal)
    && (forall i, j :: 0 <= i < j < |c.published| ==> c.published[i].ordinal != c.published[j].ordinal)
    && (forall r, p :: r in c.taken && p in c.published ==> r.ordinal != p.ordinal)
    && (forall r, k :: (r in c.taken || r in c.published) && k in c.operations ==> r.ordinal != c.operations[k].0)
  }

  ghost predicate Newest(published: seq<Numbered>, ordinal: nat, refs: seq<string>) {
    && (forall r :: r in published ==> r.ordinal <= ordinal)
    && (if ordinal == 0 then refs == [] else Numbered(ordinal, refs) in published)
  }

  lemma CallKeeps(c: Collector, call: Call)
    requires Invariant(c)
    ensures Invariant(Next(c, call))
  {
    hide Invariant, Started, Taken, Published, PrivateToolKey;
    match call {
      case StartResult(id, tool) =>
        if PrivateToolKey(id).Some? && tool.Some? {
          StartKeeps(c, PrivateToolKey(id).value, tool.value);
        }
      case TakeResult(id, tool, result) =>
        if PrivateToolKey(id).Some? {
          TakeKeeps(c, PrivateToolKey(id).value, tool, result);
        }
      case PublishResult(pick) =>
        if pick < |c.taken| {
          PublishKeeps(c, pick);
        }
    }
  }

  lemma StartKeeps(c: Collector, key: ToolKey, tool: PresentationTool)
    requires Invariant(c)
    ensures Invariant(Started(c, key, tool))
  {
    hide ValidRefs, Newest;
  }

  lemma TakeKeeps(c: Collector, key: ToolKey, tool: Option<PresentationTool>, result: ToolResult)
    requires Invariant(c)
    ensures Invariant(Taken(c, key, tool, result))
  {
    hide Newest, References, FirstOf, ValidRefs;
    if key in c.operations && result.Rows? {
      CollectedAreValid(result.values);
    }
  }

  lemma CollectedAreValid(values: seq<Option<string>>)
    ensures ValidRefs(FirstOf(References(values)))
  {
    hide IsCanonicalRef;
  }

  lemma PublishKeeps(c: Collector, pick: nat)
    requires Invariant(c) && pick < |c.taken|
    ensures Invariant(Published(c, pick))
  {
    DistinctPublished(c, pick);
    NewestPublished(c, pick);
    hide ValidRefs, Newest, Distinct;
    var v := Published(c, pick);
    assert forall r :: r in v.taken ==> r in c.taken;
    assert forall r :: r in v.published ==> r in c.published || r == c.taken[pick];
  }

  lemma NewestPublished(c: Collector, pick: nat)
    requires Invariant(c) && pick < |c.taken|
    ensures var v := Published(c, pick); Newest(v.published, v.snapshotOrdinal, v.snapshot)
  {
    hide Distinct, ValidRefs;
    var v := Published(c, pick);
    assert c.taken[pick] in c.taken && v.published[|c.published|] == c.taken[pick];
    assert forall r :: r in v.published <==> r in c.published || r == c.taken[pick];
  }

  lemma DistinctPublished(c: Collector, pick: nat)
    requires Distinct(c) && pick < |c.taken|
    ensures Distinct(Published(c, pick))
  {
    var v, r := Published(c, pick), c.taken[pick];
    assert r in c.taken;
    forall t | t in v.taken ensures t in c.taken && t.ordinal != r.ordinal {
      var i :| 0 <= i < |v.taken| && v.taken[i] == t;
      assert t == c.taken[if i < pick then i else i + 1];
    }
    assert forall p :: p in v.published <==> p in c.published || p == r;
    assert forall i :: 0 <= i < |c.published| ==> c.published[i] in c.published;
  }

  /** For every schedule: what the completion record would carry is acceptable to the
      adapter, and is the result of the latest-started operation among those that have
      been published, whatever order they completed in. */
  lemma {:induction false} EverySchedule(calls: seq<Call>)
    ensures Invariant(Play(calls))
    ensures InBounds(CompletedRecord(Play(calls).snapshot))
    decreases |calls|
  {
    if calls != [] {
      EverySchedule(calls[..|calls| - 1]);
      hide Next;
      CallKeeps(Play(calls[..|calls| - 1]), calls[|calls| - 1]);
    }
  }

  /** Schedules that publish the same results, in whatever order, present the same. */
  lemma PublicationOrderIsIrrelevant(a: seq<Call>, b: seq<Call>)
    requires forall r :: r in Play(a).published <==> r in Play(b).published
    ensures Play(a).snapshot == Play(b).snapshot
  {
    EverySchedule(a);
    EverySchedule(b);
  }

  // ----- What is collected ---------------------------------------------------------------

  /** Exactly the canonical references of the rows, in the order they first occur. */
  lemma {:induction false} ReferencesAre(values: seq<Option<string>>)
    ensures forall r :: r in References(values) <==> Some(r) in values && IsCanonicalRef(r)
    ensures forall i, j :: 0 <= i < j < |References(values)| ==> FirstAt(values, References(values)[i]) < FirstAt(values, References(values)[j])
    decreases |values|
  {
    hide IsCanonicalRef;
    if values != [] {
      var front, last := values[..|values| - 1], values[|values| - 1];
      ReferencesAre(front);
      assert values == front + [last];
      forall r | r in References(front) ensures FirstAt(values, r) == FirstAt(front, r) < |front| {
        FirstInFront(front, last, r);
      }
      if last.Some? && IsCanonicalRef(last.value) && last.value !in References(front) {
        LastIsFirst(front, last.value);
        assert References(values) == References(front) + [last.value];
      }
    }
  }

  /** Where a reference first occurs. */
  function FirstAt(values: seq<Option<string>>, r: string): nat {
    if values == [] || values[0] == Some(r) then 0 else 1 + FirstAt(values[1..], r)
  }

  lemma {:induction false} FirstInFront(front: seq<Option<string>>, last: Option<string>, r: string)
    requires Some(r) in front
    ensures FirstAt(front + [last], r) == FirstAt(front, r) < |front|
    decreases |front|
  {
    assert (front + [last])[1..] == front[1..] + [last];
    if front[0] != Some(r) {
      assert front == [front[0]] + front[1..];
      FirstInFront(front[1..], last, r);
    }
  }

  lemma {:induction false} LastIsFirst(front: seq<Option<string>>, r: string)
    requires Some(r) !in front
    ensures FirstAt(front + [Some(r)], r) == |front|
    decreases |front|
  {
    if front != [] {
      assert (front + [Some(r)])[1..] == front[1..] + [Some(r)];
      LastIsFirst(front[1..], r);
    }
  }

  /** No completion of that operation is among the calls. */
  predicate LeavesOpen(calls: seq<Call>, key: ToolKey) {
    forall call :: call in calls && call.TakeResult? ==> PrivateToolKey(call.id) != Some(key)
  }

  lemma PlayAppend(calls: seq<Call>, call: Call)
    ensures Play(calls + [call]) == Next(Play(calls), call)
  {
    assert (calls + [call])[..|calls|] == calls;
  }

  lemma {:induction false} StaysOpen(before: seq<Call>, between: seq<Call>, key: ToolKey)
    requires key in Play(before).operations && LeavesOpen(between, key)
    ensures var c := Play(before + between);
      key in c.operations && c.operations[key] == Play(before).operations[key]
    decreases |between|
  {
    if between == [] {
      assert before + between == before;
    } else {
      var front, call := between[..|between| - 1], between[|between| - 1];
      StaysOpen(before, front, key);
      assert before + between == (before + front) + [call];
      PlayAppend(before + front, call);
      assert call in between;
      hide Play, References, FirstOf;
    }
  }

  /** The operation is started, and completed with the same tool and readable rows. */
  function Completing(
    before: seq<Call>, id: RawToolId, tool: PresentationTool, between: seq<Call>, values: seq<Option<string>>): seq<Call>
  {
    before + [StartResult(id, Some(tool))] + between + [TakeResult(id, Some(tool), Rows(values))]
  }

  /** It is collected under its own number, whatever other threads do in between. */
  lemma CompletedIsTaken(
    before: seq<Call>, id: RawToolId, tool: PresentationTool, between: seq<Call>, values: seq<Option<string>>)
    requires PrivateToolKey(id).Some? && PrivateToolKey(id).value !in Play(before).operations
    requires LeavesOpen(between, PrivateToolKey(id).value)
    ensures var c := Play(Completing(before, id, tool, between, values));
      c.taken != [] && c.taken[|c.taken| - 1] == Numbered(Play(before).next + 1, FirstOf(References(values)))
  {
    var started := before + [StartResult(id, Some(tool))];
    PlayAppend(before, StartResult(id, Some(tool)));
    StaysOpen(started, between, PrivateToolKey(id).value);
    PlayAppend(started + between, TakeResult(id, Some(tool), Rows(values)));
    hide Play, References, FirstOf, PrivateToolKey, LeavesOpen;
  }

  /** Once offered it is what is presented, unless a later one was offered before. */
  lemma CompletedIsPresented(
    before: seq<Call>, id: RawToolId, tool: PresentationTool, between: seq<Call>, values: seq<Option<string>>, pick: nat)
    requires PrivateToolKey(id).Some? && PrivateToolKey(id).value !in Play(before).operations
    requires LeavesOpen(between, PrivateToolKey(id).value)
    requires pick + 1 == |Play(Completing(before, id, tool, between, values)).taken|
    ensures
      var number, calls := Play(before).next + 1, Completing(before, id, tool, between, values);
      var offered := Play(calls + [PublishResult(pick)]);
      && Numbered(number, FirstOf(References(values))) in offered.published
      && (Play(calls).snapshotOrdinal < number ==> offered.snapshot == FirstOf(References(values)))
  {
    CompletedIsTaken(before, id, tool, between, values);
    hide Completing, References, FirstOf, PrivateToolKey, LeavesOpen;
    var c := Play(Completing(before, id, tool, between, values));
    PlayAppend(Completing(before, id, tool, between, values), PublishResult(pick));
    hide Play;
    assert Published(c, pick).published[|c.published|] == c.taken[pick];
  }

  /** A result of another tool, or one that cannot be read, collects nothing. */
  lemma OtherwiseNothing(calls: seq<Call>, id: RawToolId, tool: Option<PresentationTool>, result: ToolResult)
    requires result.Unreadable? || PrivateToolKey(id).None? || PrivateToolKey(id).value !in Play(calls).operations
      || tool != Some(Play(calls).operations[PrivateToolKey(id).value].1)
    ensures Play(calls + [TakeResult(id, tool, result)]).taken == Play(calls).taken
  {
    PlayAppend(calls, TakeResult(id, tool, result));
  }
}
