/** The pipeline ledger: runs begun, finished and recovered under one lock, and the
    status read from it, which looks only at the latest run of each pipeline. */
module PipelineLedger {
  import opened Prelude

  type Key = string
  type RunId = nat

  datatype Status = Running | Completed | Failed

  datatype ErrorCode = ExecutionFailed | InterruptedPreviousRun

  datatype Run = Run(key: Key, status: Status, startedAt: int, finishedAt: Option<int>, errorCode: Option<ErrorCode>) {
    /** The table's check constraint. */
    predicate Lawful() {
      match status
      case Running => finishedAt.None? && errorCode.None?
      case Completed => finishedAt.Some? && errorCode.None?
      case Failed => finishedAt.Some? && errorCode.Some?
    }

    function Ended(status: Status, at: int, code: Option<ErrorCode>): Run {
      this.(status := status, finishedAt := Some(at), errorCode := code)
    }
  }

  datatype LedgerError = AlreadyRunning | NotRunning

  // ----- What every history of the ledger keeps ------------------------------------------

  /** Of two runs of one pipeline, the one begun earlier ended before the other began. */
  ghost predicate InTurn(r: Run, s: Run) {
    r.key == s.key && r.startedAt <= s.startedAt ==>
      r.startedAt < s.startedAt && r.finishedAt.Some? && r.finishedAt.value <= s.startedAt
  }

  ghost predicate LedgerValid(rows: seq<Run>, clock: int) {
    && (forall i :: 0 <= i < |rows| ==> rows[i].Lawful() && rows[i].startedAt <= clock)
    && (forall i :: 0 <= i < |rows| ==>
          (rows[i].finishedAt.Some? ==> rows[i].startedAt < rows[i].finishedAt.value <= clock))
    && (forall i, j :: 0 <= i < |rows| && 0 <= j < |rows| && i != j ==> InTurn(rows[i], rows[j]))
  }

  /** At most one row per key is running. */
  lemma OneRunning(rows: seq<Run>, clock: int, i: nat, j: nat)
    requires LedgerValid(rows, clock) && i < |rows| && j < |rows| && i != j && rows[i].key == rows[j].key
    ensures !rows[i].status.Running? || !rows[j].status.Running?
  {
    assert InTurn(rows[i], rows[j]) && InTurn(rows[j], rows[i]);
  }

  /** How a ledger moves on: rows are added, and running rows end, once. */
  ghost predicate Evolves(before: seq<Run>, after: seq<Run>) {
    && |before| <= |after|
    && forall i :: 0 <= i < |before| ==> after[i] == before[i] || EndOf(before[i], after[i])
  }

  ghost predicate EndOf(r: Run, s: Run) {
    r.status.Running? && !s.status.Running? && s.key == r.key && s.startedAt == r.startedAt
  }

  class PipelineRunRepository {
    var rows: seq<Run>
    ghost var clock: int

    ghost predicate Valid()
      reads this
    {
      LedgerValid(rows, clock)
    }

    constructor (clock: int)
      ensures Valid() && rows == [] && this.clock == clock
    {
      rows, this.clock := [], clock;
    }

    predicate HasRunning(key: Key)
      reads this
    {
      exists i :: 0 <= i < |rows| && rows[i].key == key && rows[i].status.Running?
    }

    /** A unique index admits one running row per key. */
    method BeginRun(key: Key, now: int) returns (begun: Result<RunId, LedgerError>)
      requires Valid() && now > clock
      modifies this
      ensures Valid() && clock == now
      ensures begun.Err? <==> old(HasRunning(key))
      ensures begun.Ok? ==> begun.value == |old(rows)| && rows == old(rows) + [Run(key, Running, now, None, None)]
      ensures begun.Err? ==> rows == old(rows)
      ensures Evolves(old(rows), rows)
    {
      clock := now;
      if HasRunning(key) {
        return Err(AlreadyRunning);
      }
      rows := rows + [Run(key, Running, now, None, None)];
      return Ok(|rows| - 1);
    }

    /** `_finish`: only a running row ends, and only once. */
    method Finish(id: RunId, status: Status, code: Option<ErrorCode>, now: int) returns (failed: Option<LedgerError>)
      requires Valid() && now > clock && !status.Running? && (status.Failed? <==> code.Some?)
      modifies this
      ensures Valid() && clock == now
      ensures failed.None? <==> id < |old(rows)| && old(rows)[id].status.Running?
      ensures failed.None? ==> rows == old(rows)[id := old(rows)[id].Ended(status, now, code)]
      ensures failed.Some? ==> rows == old(rows)
      ensures Evolves(old(rows), rows)
    {
      EndKeeps(rows, clock, id, status, code, now);
      clock := now;
      if id >= |rows| || !rows[id].status.Running? {
        return Some(NotRunning);
      }
      rows := rows[id := rows[id].Ended(status, now, code)];
      return None;
    }

    /** What a dead process left running is ended before the next begins. */
    method FailInterruptedRun(key: Key, now: int) returns (ended: Option<RunId>)
      requires Valid() && now > clock
      modifies this
      ensures Valid() && clock == now && !HasRunning(key)
      ensures ended.None? ==> rows == old(rows)
      ensures ended.Some? ==>
        && ended.value < |old(rows)| && old(rows)[ended.value].key == key && old(rows)[ended.value].status.Running?
        && rows == old(rows)[ended.value := old(rows)[ended.value].Ended(Failed, now, Some(InterruptedPreviousRun))]
      ensures Evolves(old(rows), rows)
    {
      ended := None;
      if HasRunning(key) {
        var i :| 0 <= i < |rows| && rows[i].key == key && rows[i].status.Running?;
        OthersEnded(rows, clock, i);
        EndKeeps(rows, clock, i, Failed, Some(InterruptedPreviousRun), now);
        rows := rows[i := rows[i].Ended(Failed, now, Some(InterruptedPreviousRun))];
        ended := Some(i);
      }
      clock := now;
    }
  }

  lemma OthersEnded(rows: seq<Run>, clock: int, i: nat)
    requires LedgerValid(rows, clock) && i < |rows| && rows[i].status.Running?
    ensures forall j :: 0 <= j < |rows| && j != i && rows[j].key == rows[i].key ==> !rows[j].status.Running?
  {
    forall j | 0 <= j < |rows| && j != i && rows[j].key == rows[i].key ensures !rows[j].status.Running? {
      OneRunning(rows, clock, i, j);
    }
  }

  lemma EndKeeps(rows: seq<Run>, clock: int, id: RunId, status: Status, code: Option<ErrorCode>, now: int)
    requires LedgerValid(rows, clock) && now > clock && !status.Running? && (status.Failed? <==> code.Some?)
    ensures id < |rows| && rows[id].status.Running? ==> LedgerValid(rows[id := rows[id].Ended(status, now, code)], now)
    ensures LedgerValid(rows, now)
  {
    if id < |rows| && rows[id].status.Running? {
      var after := rows[id := rows[id].Ended(status, now, code)];
      forall i, j | 0 <= i < |rows| && 0 <= j < |rows| && i != j ensures InTurn(after[i], after[j]) {
        assert InTurn(rows[i], rows[j]);
      }
    }
  }

  // ----- One formal run, under the lock -----------------------------------------------------

  /** How the process of a run ends. A death releases the lock and writes nothing more. */
  datatype Fate = Exits(code: int) | Raises | DiesFirst | DiesRecovered | DiesRunning

  /** The exact rows a run ends with, given the rows once interrupted runs are recovered. */
  function EndedRow(key: Key, fate: Fate, begun: int, ended: int): Run {
    match fate
    case Exits(code) =>
      if code == 0 then Run(key, Completed, begun, Some(ended), None)
      else Run(key, Failed, begun, Some(ended), Some(ExecutionFailed))
    case Raises => Run(key, Failed, begun, Some(ended), Some(ExecutionFailed))
    case _ => Run(key, Running, begun, None, None)
  }

  /** `_execute_with_ledger`: recover, begin, run, finish. Because the lock is held
      throughout, beginning and finishing never meet a row in the wrong state. */
  method ExecuteWithLedger(repository: PipelineRunRepository, key: Key, fate: Fate, recovered: int, begun: int, ended: int)
    requires repository.Valid() && repository.clock < recovered < begun < ended
    modifies repository
    ensures repository.Valid() && repository.clock <= ended
    ensures Evolves(old(repository.rows), repository.rows)
    ensures fate.DiesFirst? ==> repository.rows == old(repository.rows)
    ensures fate.DiesRecovered? ==> |repository.rows| == |old(repository.rows)| && !repository.HasRunning(key)
    ensures !fate.DiesFirst? && !fate.DiesRecovered? ==>
      && |repository.rows| == |old(repository.rows)| + 1
      && repository.rows[|old(repository.rows)|] == EndedRow(key, fate, begun, ended)
    ensures forall i :: 0 <= i < |old(repository.rows)| && !old(repository.rows)[i].status.Running? ==>
      repository.rows[i] == old(repository.rows)[i]
  {
    if fate.DiesFirst? {
      return;
    }
    var interrupted := repository.FailInterruptedRun(key, recovered);
    if fate.DiesRecovered? {
      return;
    }
    var run := repository.BeginRun(key, begun);
    if fate.DiesRunning? {
      return;
    }
    var failed: Option<LedgerError>;
    if fate == Exits(0) {
      failed := repository.Finish(run.value, Completed, None, ended);
    } else {
      failed := repository.Finish(run.value, Failed, Some(ExecutionFailed), ended);
    }
  }

  // ----- The queries -----------------------------------------------------------------------

  /** `get_latest_runs`, for one key: by start, then by identity. */
  function Latest(rows: seq<Run>, key: Key): (latest: Option<Run>)
    ensures latest.Some? ==> latest.value in rows && latest.value.key == key
    ensures forall r :: r in rows && r.key == key ==> latest.Some? && r.startedAt <= latest.value.startedAt
    decreases |rows|
  {
    if rows == [] then None
    else
      var before, last := Latest(rows[..|rows| - 1], key), rows[|rows| - 1];
      if last.key == key && (before.None? || last.startedAt > before.value.startedAt) then Some(last) else before
  }

  /** What is meant by a success of a pipeline: a completed run of it. */
  predicate IsSuccess(r: Run, key: Key) { r.key == key && r.status == Completed && r.finishedAt.Some? }

  /** `get_last_successes`, for one key: the maximum over its completed runs. */
  function LastSuccess(rows: seq<Run>, key: Key): (at: Option<int>)
    ensures at.Some? <==> exists r :: r in rows && IsSuccess(r, key)
    ensures forall r :: r in rows && IsSuccess(r, key) ==> at.Some? && r.finishedAt.value <= at.value
    ensures at.Some? ==> exists r :: r in rows && IsSuccess(r, key) && r.finishedAt == at
    decreases |rows|
  {
    if rows == [] then None
    else
      var before, last := LastSuccess(rows[..|rows| - 1], key), rows[|rows| - 1];
      assert last in rows && forall r :: r in rows <==> r in rows[..|rows| - 1] || r == last;
      var counts := last.key == key && last.status.Completed? && last.finishedAt.Some?;
      if counts && (before.None? || last.finishedAt.value > before.value) then last.finishedAt else before
  }

  /** Where a run bears on its dependents: at its end, or while it runs, at its start. */
  function Mark(r: Run): int
    requires r.Lawful()
  {
    if r.status.Running? then r.startedAt else r.finishedAt.value
  }

  /** Looking at the latest run is enough: no run of the key bears later than it. */
  lemma LatestMarksLast(rows: seq<Run>, clock: int, key: Key)
    requires LedgerValid(rows, clock)
    ensures forall r :: r in rows && r.key == key ==>
      Latest(rows, key).Some? && Latest(rows, key).value.Lawful() && Mark(r) <= Mark(Latest(rows, key).value)
  {
    forall r | r in rows && r.key == key
      ensures Latest(rows, key).Some? && Latest(rows, key).value.Lawful() && Mark(r) <= Mark(Latest(rows, key).value)
    {
      var l := Latest(rows, key).value;
      var i :| 0 <= i < |rows| && rows[i] == r;
      var j :| 0 <= j < |rows| && rows[j] == l;
      assert i != j ==> InTurn(rows[i], rows[j]);
    }
  }

  // ----- The status -----------------------------------------------------------------------

  datatype Definition = Definition(pipelineKey: Key, dependencies: seq<Key>)

  datatype View = View(pipelineKey: Key, lastSuccessAt: Option<int>, validatedAfterDependencies: Option<bool>)

  /** The pipelines that mutate what a dependency provides. */
  function GroupOf(groups: map<Key, seq<Key>>, dependency: Key): seq<Key> {
    if dependency in groups then groups[dependency] else [dependency]
  }

  /** The run bears no later than that on its dependents. */
  predicate NoLater(r: Run, at: int) {
    if r.status == Running then r.finishedAt.None? && r.startedAt <= at else r.finishedAt.Some? && r.finishedAt.value <= at
  }

  /** A dependency is settled at a time: some run of its group has ever succeeded, some
      run is known, and no run of the group ended after that time or, still running,
      began after it. */
  ghost predicate Settled(runs: seq<Run>, successes: seq<Run>, group: seq<Key>, at: int) {
    && (exists r, k :: k in group && r in successes && IsSuccess(r, k))
    && (exists r :: r in runs && r.key in group)
    && (forall r :: r in runs && r.key in group ==> NoLater(r, at))
  }

  /** What `validated_after_dependencies` means. The latest runs are read from one state
      of the ledger, the successes from another. */
  ghost predicate Validated(
    runs: seq<Run>, successes: seq<Run>, groups: map<Key, seq<Key>>, d: Definition)
  {
    LastSuccess(successes, d.pipelineKey).Some?
    && forall dependency :: dependency in d.dependencies ==>
         Settled(runs, successes, if dependency in groups then groups[dependency] else [dependency],
                 LastSuccess(successes, d.pipelineKey).value)
  }

  /** One dependency's pair: whether anything of its group succeeded, and the latest
      mark of its keys' latest runs. */
  method DependencyState(runs: seq<Run>, successes: seq<Run>, group: seq<Key>, ghost clock: int)
    returns (established: bool, watermark: Option<int>)
    requires LedgerValid(runs, clock)
    ensures forall at: int :: established && watermark.Some? && at >= watermark.value <==> Settled(runs, successes, group, at)
  {
    established, watermark := false, None;
    for i := 0 to |group|
      invariant established <==> exists r, k :: k in group[..i] && r in successes && IsSuccess(r, k)
      invariant watermark.Some? <==> exists r :: r in runs && r.key in group[..i]
      invariant forall r :: r in runs && r.key in group[..i] ==> watermark.Some? && r.Lawful() && Mark(r) <= watermark.value
      invariant watermark.Some? ==>
        exists r :: r in runs && r.key in group[..i] && r.Lawful() && Mark(r) == watermark.value
    {
      var key := group[i];
      assert group[..i + 1] == group[..i] + [key];
      var success := LastSuccess(successes, key);
      established := established || success.Some?;
      var run := Latest(runs, key);
      LatestMarksLast(runs, clock, key);
      if run.Some? {
        var candidate := Mark(run.value);
        watermark := if watermark.None? || candidate > watermark.value then Some(candidate) else watermark;
      }
    }
    assert group[..|group|] == group;
  }

  /** `get_status`: although it inspects only latest runs, a pipeline is reported as
      validated exactly when all runs of its dependencies' groups are settled. */
  method GetStatus(
    pipelines: seq<Definition>, groups: map<Key, seq<Key>>, runs: seq<Run>, successes: seq<Run>, ghost clock: int)
    returns (views: seq<View>)
    requires LedgerValid(runs, clock)
    ensures |views| == |pipelines|
    ensures forall i :: 0 <= i < |views| ==> Reports(views[i], pipelines[i], runs, successes, groups)
    ensures forall i :: 0 <= i < |views| ==> Tells(views[i], pipelines[i], successes, groups)
    ensures runs == successes ==> forall i :: 0 <= i < |views| ==> SoundView(views[i], pipelines[i], runs, groups)
  {
    views := [];
    for i := 0 to |pipelines|
      invariant |views| == i
      invariant forall k :: 0 <= k < i ==> Reports(views[k], pipelines[k], runs, successes, groups)
    {
      var validated := StatusOf(pipelines[i], groups, runs, successes, clock);
      views := views + [View(pipelines[i].pipelineKey, LastSuccess(successes, pipelines[i].pipelineKey), validated)];
    }
    forall i | 0 <= i < |views| ensures Tells(views[i], pipelines[i], successes, groups) {
      ReportTells(views[i], pipelines[i], runs, successes, groups);
    }
    if runs == successes {
      forall i | 0 <= i < |views| ensures SoundView(views[i], pipelines[i], runs, groups) {
        ReportIsSound(views[i], pipelines[i], runs, groups);
      }
    }
  }

  /** What a reader of the view may conclude: of no group the pipeline depends on did a run
      end after the reported success. */
  ghost predicate SoundView(v: View, d: Definition, rows: seq<Run>, groups: map<Key, seq<Key>>) {
    v.validatedAfterDependencies == Some(true) ==>
      && v.lastSuccessAt.Some?
      && forall r, dependency :: r in rows && dependency in d.dependencies && r.key in GroupOf(groups, dependency) ==>
           r.finishedAt.Some? ==> r.finishedAt.value <= v.lastSuccessAt.value
  }

  /** On the rows: the time reported is the last end of a completed run of the pipeline,
      and validated means that some run of each dependency's group has completed. */
  ghost predicate Tells(v: View, d: Definition, successes: seq<Run>, groups: map<Key, seq<Key>>) {
    && (forall t :: v.lastSuccessAt == Some(t) <==> LastEnd(successes, d.pipelineKey, t))
    && (v.validatedAfterDependencies == Some(true) ==>
          forall dependency :: dependency in d.dependencies ==> EverProvided(successes, groups, dependency))
  }

  ghost predicate LastEnd(rows: seq<Run>, key: Key, t: int) {
    && (exists r :: r in rows && r.key == key && r.status.Completed? && r.finishedAt == Some(t))
    && (forall r :: r in rows && r.key == key && r.status.Completed? && r.finishedAt.Some? ==> r.finishedAt.value <= t)
  }

  ghost predicate EverProvided(rows: seq<Run>, groups: map<Key, seq<Key>>, dependency: Key) {
    exists r :: r in rows && r.status.Completed? && (if dependency in groups then r.key in groups[dependency] else r.key == dependency)
  }

  lemma ReportTells(v: View, d: Definition, runs: seq<Run>, successes: seq<Run>, groups: map<Key, seq<Key>>)
    requires Reports(v, d, runs, successes, groups)
    ensures Tells(v, d, successes, groups)
  {
    assert forall t :: v.lastSuccessAt == Some(t) <==> LastEnd(successes, d.pipelineKey, t);
    if v.validatedAfterDependencies == Some(true) {
      forall dependency | dependency in d.dependencies ensures EverProvided(successes, groups, dependency) {
        var group := if dependency in groups then groups[dependency] else [dependency];
        assert Settled(runs, successes, group, v.lastSuccessAt.value);
      }
    }
  }

  lemma ReportIsSound(v: View, d: Definition, rows: seq<Run>, groups: map<Key, seq<Key>>)
    requires Reports(v, d, rows, rows, groups)
    ensures SoundView(v, d, rows, groups)
  {
    if v.validatedAfterDependencies == Some(true) {
      forall r, dependency | r in rows && dependency in d.dependencies && r.key in GroupOf(groups, dependency)
        ensures r.finishedAt.Some? ==> r.finishedAt.value <= v.lastSuccessAt.value
      {
        assert Settled(rows, rows, GroupOf(groups, dependency), v.lastSuccessAt.value);
      }
    }
  }

  ghost predicate Reports(v: View, d: Definition, runs: seq<Run>, successes: seq<Run>, groups: map<Key, seq<Key>>) {
    && v.pipelineKey == d.pipelineKey && v.lastSuccessAt == LastSuccess(successes, d.pipelineKey)
    && v.validatedAfterDependencies
       == (if d.dependencies == [] then None else Some(Validated(runs, successes, groups, d)))
  }

  method StatusOf(d: Definition, groups: map<Key, seq<Key>>, runs: seq<Run>, successes: seq<Run>, ghost clock: int)
    returns (validated: Option<bool>)
    requires LedgerValid(runs, clock)
    ensures validated == if d.dependencies == [] then None else Some(Validated(runs, successes, groups, d))
  {
    if d.dependencies == [] {
      return None;
    }
    hide Settled, LedgerValid;
    var lastSuccess := LastSuccess(successes, d.pipelineKey);
    var all := lastSuccess.Some?;
    for i := 0 to |d.dependencies|
      invariant all <==> lastSuccess.Some? && forall k :: 0 <= k < i ==>
        Settled(runs, successes, GroupOf(groups, d.dependencies[k]), lastSuccess.value)
    {
      var established, watermark := DependencyState(runs, successes, GroupOf(groups, d.dependencies[i]), clock);
      all := all && established && watermark.Some? && lastSuccess.value >= watermark.value;
    }
    return Some(all);
  }

  // ----- Two reads -----------------------------------------------------------------------

  /** Every grouped run that the first read has not seen as it now is ended, or began, no
      later than the dependent's success. */
  ghost predicate NothingLater(first: seq<Run>, second: seq<Run>, groups: map<Key, seq<Key>>, d: Definition) {
    LastSuccess(second, d.pipelineKey).Some?
    && forall dependency, r: Run ::
         dependency in d.dependencies && r.key in GroupOf(groups, dependency) && r in second && r !in first ==>
           NoLater(r, LastSuccess(second, d.pipelineKey).value)
  }

  /** The two reads may see two states of the ledger. A pipeline reported as validated
      really is, in the later state, if and only if nothing grouped happened between the
      reads that bears later than its success. */
  lemma SplitReadsSoundExactlyWhen(
    first: seq<Run>, second: seq<Run>, groups: map<Key, seq<Key>>, d: Definition, clock: int)
    requires LedgerValid(second, clock) && Validated(first, second, groups, d)
    ensures Validated(second, second, groups, d) <==> NothingLater(first, second, groups, d)
  {
    var at := LastSuccess(second, d.pipelineKey).value;
    if NothingLater(first, second, groups, d) {
      forall dependency | dependency in d.dependencies ensures Settled(second, second, GroupOf(groups, dependency), at) {
        assert Settled(first, second, GroupOf(groups, dependency), at);
      }
    }
    if Validated(second, second, groups, d) {
      forall dependency, r: Run |
        dependency in d.dependencies && r.key in GroupOf(groups, dependency) && r in second && r !in first
        ensures NoLater(r, at)
      {
        assert Settled(second, second, GroupOf(groups, dependency), at);
      }
    }
  }

  /** The other way: a validated pipeline is reported as such unless the first read came
      before any run of some group. */
  lemma SplitReadsMissExactlyWhen(
    first: seq<Run>, second: seq<Run>, groups: map<Key, seq<Key>>, d: Definition, clock: int, later: int)
    requires LedgerValid(first, clock) && LedgerValid(second, later) && Evolves(first, second)
    requires Validated(second, second, groups, d)
    ensures Validated(first, second, groups, d) <==>
      forall dependency :: dependency in d.dependencies ==> exists r :: r in first && r.key in GroupOf(groups, dependency)
  {
    var at := LastSuccess(second, d.pipelineKey).value;
    forall dependency | dependency in d.dependencies
      ensures Settled(first, second, GroupOf(groups, dependency), at)
        <==> exists r :: r in first && r.key in GroupOf(groups, dependency)
    {
      assert Settled(second, second, GroupOf(groups, dependency), at);
      EarlierMarksAreNoLater(first, second, GroupOf(groups, dependency), at);
    }
  }

  lemma EarlierMarksAreNoLater(first: seq<Run>, second: seq<Run>, group: seq<Key>, at: int)
    requires Evolves(first, second) && forall i :: 0 <= i < |first| ==> first[i].Lawful()
    requires forall i :: 0 <= i < |second| ==>
      second[i].Lawful() && (second[i].finishedAt.Some? ==> second[i].startedAt < second[i].finishedAt.value)
    requires forall r :: r in second && r.key in group ==> NoLater(r, at)
    ensures forall r :: r in first && r.key in group ==> NoLater(r, at)
  {
    forall r | r in first && r.key in group ensures r.Lawful() && Mark(r) <= at {
      var i :| 0 <= i < |first| && first[i] == r;
      assert second[i] in second;
    }
  }

  /** A provider run, then a dependent's, then the provider again. */
  function Before(p: Key): seq<Run> { [Run(p, Completed, 1, Some(2), None)] }

  function Later(p: Key, e: Key): seq<Run> {
    [Run(p, Completed, 1, Some(2), None), Run(e, Completed, 3, Some(4), None), Run(p, Completed, 5, Some(6), None)]
  }

  lemma LaterSuccess(p: Key, e: Key)
    requires p != e
    ensures LastSuccess(Later(p, e), e) == Some(4)
  {
    var rows := Later(p, e);
    assert rows[1] in rows && IsSuccess(rows[1], e);
    hide LastSuccess;
    forall r | r in rows && IsSuccess(r, e) ensures r.finishedAt == Some(4) {
    }
  }

  lemma LaterSettles(p: Key, e: Key)
    requires p != e
    ensures Settled(Before(p), Later(p, e), [p], 4) && !Settled(Later(p, e), Later(p, e), [p], 4)
  {
    var rows := Later(p, e);
    assert rows[2] in rows && IsSuccess(rows[2], p) && Mark(rows[2]) == 6 && p in [p];
    assert Before(p)[0] in Before(p);
  }

  /** When that fails, the report misleads: the provider runs again, after the dependent's
      success, between the two reads. */
  lemma SplitReadsCanMislead(p: Key, e: Key)
    requires p != e
    ensures LedgerValid(Before(p), 2) && LedgerValid(Later(p, e), 6)
    ensures Validated(Before(p), Later(p, e), map[], Definition(e, [p]))
    ensures !Validated(Later(p, e), Later(p, e), map[], Definition(e, [p]))
  {
    LaterSuccess(p, e);
    LaterSettles(p, e);
    hide LastSuccess, Settled;
    assert p in Definition(e, [p]).dependencies && GroupOf(map[], p) == [p];
  }

  /** Both states are states of one ledger, reached by beginning and finishing runs: the
      first read sees `Before`, the second `Later`. */
  method MisleadingHistory(p: Key, e: Key) returns (first: seq<Run>, second: seq<Run>)
    requires p != e
    ensures first == Before(p) && second == Later(p, e)
  {
    var repository := new PipelineRunRepository(0);
    CompletesOneRun(repository, p, 1, 2);
    first := repository.rows;
    CompletesOneRun(repository, e, 3, 4);
    CompletesOneRun(repository, p, 5, 6);
    second := repository.rows;
  }

  method CompletesOneRun(repository: PipelineRunRepository, key: Key, begun: int, ended: int)
    requires repository.Valid() && repository.clock < begun < ended && !repository.HasRunning(key)
    modifies repository
    ensures repository.Valid() && repository.clock == ended
    ensures repository.rows == old(repository.rows) + [Run(key, Completed, begun, Some(ended), None)]
  {
    var run := repository.BeginRun(key, begun);
    var failed := repository.Finish(run.value, Completed, None, ended);
  }
}
