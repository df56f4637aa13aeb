/** Incremental runs of any number of processes, interleaved step by step, each
    free to stop anywhere. Deciding and executing are separate steps, so a decision
    may be executed on a world that has changed since. */
module Checkpoint {
  import opened Prelude
  import opened WorldModel
  import opened Matcher
  import opened Reconciliation
  import opened SyncState

  type RunId = nat

  /** A decision waiting to be executed, with what it was made from. */
  datatype Pending = Pending(d: Decision, repo: Repo, nextId: Id)

  datatype Phase = Scanning | Judged(targets: seq<Source>) | Applied | Blocking | Ended

  datatype Run = Run(read: State, batch: Batch, next: nat, pending: Option<Pending>, disappeared: nat, phase: Phase)

  datatype Entry =
    | Executed(run: RunId, fact: nat, decision: Pending)
    | TombstonesApplied(run: RunId)
    | SwappedIn(run: RunId, version: nat, checkpoint: string)
    | MarkedRequired(version: nat)
    | Recovered(version: nat, checkpoint: string)

  datatype Sys = Sys(world: World, row: State, runs: map<RunId, Run>, log: seq<Entry>)

  datatype Event =
    | Start(run: RunId, batch: Batch)
    | DecideNext(run: RunId)
    | ExecutePending(run: RunId)
    | JudgeTombstones(run: RunId)
    | ApplyTombstones(run: RunId)
    | SwapCheckpoint(run: RunId)
    | MarkBlocked(run: RunId)
    | Crash(run: RunId)
    | RecoverBy(expected: nat, checkpoint: string)
    | FullSync(batch: Batch)

  /** What `sync_incremental` checks before it runs a batch. */
  predicate Admissible(b: Batch) {
    b.mode.IncrementalNonAuthoritative? && b.nextCheckpoint.Some? && b.nextCheckpoint.value != ""
  }

  function Put(s: Sys, id: RunId, r: Run): Sys { s.(runs := s.runs[id := r]) }

  function DecideStep(s: Sys, id: RunId, r: Run): Sys
    requires r.next < |r.batch.items|
  {
    var o := r.batch.items[r.next];
    if o.fact.provider != r.batch.provider then Put(s, id, r.(phase := Ended))
    else
      match Decide(o, s.world.repo, s.world.nextId)
      case Skip => Put(s, id, r.(next := r.next + 1, disappeared := r.disappeared + 1))
      case Raise(_) => Put(s, id, r.(phase := Ended))
      case Act(d) =>
        Put(s, id, r.(pending := Some(Pending(d, s.world.repo, s.world.nextId))))
          .(world := s.world.(nextId := s.world.nextId + 3))
  }

  function ExecuteStep(s: Sys, id: RunId, r: Run): Sys
    requires r.pending.Some?
  {
    match ExecuteMany(s.world.repo, [r.pending.value.d])
    case Err(_) => Put(s, id, r.(phase := Ended))
    case Ok(repo) =>
      Put(s, id, r.(next := r.next + 1, pending := None))
        .(world := s.world.(repo := repo), log := s.log + [Executed(id, r.next, r.pending.value)])
  }

  function JudgeStep(s: Sys, id: RunId, r: Run): Sys {
    if r.batch.interruption == Some(InvalidCheckpoint) then Put(s, id, r.(phase := Blocking))
    else if r.batch.interruption.Some? || r.disappeared > 0 then Put(s, id, r.(phase := Ended))
    else
      match TombstoneTargets(s.world.repo, r.batch.provider, r.batch.tombstones)
      case Err(_) => Put(s, id, r.(phase := Ended))
      case Ok(targets) => Put(s, id, r.(phase := Judged(targets)))
  }

  function ApplyStep(s: Sys, id: RunId, r: Run): Sys
    requires r.phase.Judged?
  {
    var (w, failed) := DeactivateAll(s.world, r.phase.targets);
    if failed.Some? then Put(s, id, r.(phase := Ended)).(world := w)
    else Put(s, id, r.(phase := Applied)).(world := w, log := s.log + [TombstonesApplied(id)])
  }

  function SwapStep(s: Sys, id: RunId, r: Run): Sys
    requires r.batch.nextCheckpoint.Some?
  {
    match Swap(s.row, r.read.version, r.batch.nextCheckpoint.value)
    case None => Put(s, id, r.(phase := Ended))
    case Some(row) =>
      Put(s, id, r.(phase := Ended))
        .(row := row, log := s.log + [SwappedIn(id, r.read.version, r.batch.nextCheckpoint.value)])
  }

  function MarkStep(s: Sys, id: RunId, r: Run): Sys {
    match MarkRequired(s.row, r.read.version)
    case None => Put(s, id, r.(phase := Ended))
    case Some(row) => Put(s, id, r.(phase := Ended)).(row := row, log := s.log + [MarkedRequired(r.read.version)])
  }

  function Next(s: Sys, e: Event): Sys {
    match e
    case Start(id, b) =>
      if id in s.runs || s.row.reconciliationRequired || !Admissible(b) then s
      else Put(s, id, Run(s.row, b, 0, None, 0, Scanning))
    case FullSync(b) => s.(world := RunBatch(s.world, b).0)
    case RecoverBy(expected, c) =>
      (match Recover(s.row, expected, c)
       case None => s
       case Some(row) => s.(row := row, log := s.log + [Recovered(expected, c)]))
    case DecideNext(id) =>
      if id in s.runs && CanDecide(s.runs[id]) then DecideStep(s, id, s.runs[id]) else s
    case ExecutePending(id) =>
      if id in s.runs && s.runs[id].phase.Scanning? && s.runs[id].pending.Some? then ExecuteStep(s, id, s.runs[id]) else s
    case JudgeTombstones(id) =>
      if id in s.runs && CanJudge(s.runs[id]) then JudgeStep(s, id, s.runs[id]) else s
    case ApplyTombstones(id) =>
      if id in s.runs && s.runs[id].phase.Judged? then ApplyStep(s, id, s.runs[id]) else s
    case SwapCheckpoint(id) =>
      if id in s.runs && CanSwap(s.runs[id]) then SwapStep(s, id, s.runs[id]) else s
    case MarkBlocked(id) =>
      if id in s.runs && s.runs[id].phase.Blocking? then MarkStep(s, id, s.runs[id]) else s
    case Crash(id) =>
      if id in s.runs then Put(s, id, s.runs[id].(phase := Ended)) else s
  }

  predicate CanDecide(r: Run) { r.phase.Scanning? && r.pending.None? && r.next < |r.batch.items| }

  predicate CanJudge(r: Run) { r.phase.Scanning? && r.pending.None? && r.next == |r.batch.items| }

  predicate CanSwap(r: Run) { r.phase.Applied? && r.batch.nextCheckpoint.Some? }

  function Play(s: Sys, events: seq<Event>): Sys
    decreases |events|
  {
    if events == [] then s else Play(Next(s, events[0]), events[1..])
  }

  function Begin(w: World): Sys { Sys(w, INITIAL, map[], []) }

  // ----- What the log says -----------------------------------------------------------

  /** Before position p of the log, run `id` executed its fact i: a decision made on
      that fact of its batch. */
  ghost predicate ExecutedBefore(log: seq<Entry>, p: nat, id: RunId, b: Batch, i: int) {
    exists q :: 0 <= q < p && q < |log| && log[q].Executed? && log[q].run == id && log[q].fact == i && 0 <= i < |b.items|
      && Decide(b.items[i], log[q].decision.repo, log[q].decision.nextId) == Act(log[q].decision.d)
  }

  ghost predicate AllExecutedBefore(log: seq<Entry>, p: nat, id: RunId, b: Batch) {
    forall i :: 0 <= i < |b.items| ==> ExecutedBefore(log, p, id, b, i)
  }

  /** Before p, the tombstones were applied, and before that every fact was executed. */
  ghost predicate CompleteBefore(log: seq<Entry>, p: nat, id: RunId, b: Batch) {
    exists t :: 0 <= t < p && t < |log| && log[t] == TombstonesApplied(id) && AllExecutedBefore(log, t, id, b)
  }

  predicate IsChange(e: Entry) { e.SwappedIn? || e.MarkedRequired? || e.Recovered? }

  /** The checkpoint the log last put in place. */
  function StoredCheckpoint(log: seq<Entry>): Option<string>
    decreases |log|
  {
    if log == [] then None
    else
      var last := log[|log| - 1];
      if last.SwappedIn? || last.Recovered? then Some(last.checkpoint) else StoredCheckpoint(log[..|log| - 1])
  }

  /** The log last said that a reconciliation is required. */
  predicate Blocked(log: seq<Entry>)
    decreases |log|
  {
    if log == [] then false
    else
      var last := log[|log| - 1];
      last.MarkedRequired? || (!last.Recovered? && Blocked(log[..|log| - 1]))
  }

  lemma BlockedAppend(log: seq<Entry>, e: Entry)
    ensures Blocked(log + [e]) <==> e.MarkedRequired? || (!e.Recovered? && Blocked(log))
    ensures StoredCheckpoint(log + [e]) == (if e.SwappedIn? || e.Recovered? then Some(e.checkpoint) else StoredCheckpoint(log))
  {
    assert (log + [e])[..|log|] == log;
  }

  /** No swap while a reconciliation is required, and no recovery otherwise. */
  ghost predicate InOrder(log: seq<Entry>) {
    forall p :: 0 <= p < |log| && (log[p].SwappedIn? || log[p].Recovered?) ==> (log[p].Recovered? <==> Blocked(log[..p]))
  }

  lemma InOrderAppend(log: seq<Entry>, e: Entry)
    requires InOrder(log) && (e.SwappedIn? ==> !Blocked(log)) && (e.Recovered? ==> Blocked(log))
    ensures InOrder(log + [e])
  {
    var more := log + [e];
    forall p | 0 <= p < |more| && (more[p].SwappedIn? || more[p].Recovered?)
      ensures more[p].Recovered? <==> Blocked(more[..p])
    {
      assert p < |log| ==> more[..p] == log[..p] && more[p] == log[p];
      assert p == |log| ==> more[..p] == log;
    }
  }

  ghost predicate RunInv(s: Sys, id: RunId, r: Run) {
    && r.read.version <= s.row.version && Admissible(r.batch) && r.next <= |r.batch.items|
    && (r.disappeared == 0 ==> forall i :: 0 <= i < r.next ==> ExecutedBefore(s.log, |s.log|, id, r.batch, i))
    && (r.pending.Some? ==> r.next < |r.batch.items| && Decide(r.batch.items[r.next], r.pending.value.repo, r.pending.value.nextId) == Act(r.pending.value.d))
    && (r.phase.Judged? ==> r.next == |r.batch.items| && r.disappeared == 0)
    && (r.phase.Applied? ==> CompleteBefore(s.log, |s.log|, id, r.batch))
  }

  ghost predicate LogInv(s: Sys) {
    && (forall p :: 0 <= p < |s.log| && IsChange(s.log[p]) ==> s.log[p].version < s.row.version)
    && (forall p, q :: 0 <= p < q < |s.log| && IsChange(s.log[p]) && IsChange(s.log[q]) ==>
          s.log[p].version < s.log[q].version)
    && (forall p :: 0 <= p < |s.log| && s.log[p].SwappedIn? ==>
          && s.log[p].run in s.runs
          && s.runs[s.log[p].run].batch.nextCheckpoint == Some(s.log[p].checkpoint)
          && CompleteBefore(s.log, p, s.log[p].run, s.runs[s.log[p].run].batch))
    && s.row.checkpoint == StoredCheckpoint(s.log) && (s.row.reconciliationRequired <==> Blocked(s.log))
    && InOrder(s.log)
  }

  ghost predicate Inv(s: Sys) {
    LogInv(s) && forall id :: id in s.runs ==> RunInv(s, id, s.runs[id])
  }

  lemma LogGrows(log: seq<Entry>, e: Entry, p: nat, id: RunId, b: Batch)
    requires p <= |log|
    ensures forall i :: ExecutedBefore(log, p, id, b, i) ==> ExecutedBefore(log + [e], p, id, b, i)
    ensures forall i :: ExecutedBefore(log, p, id, b, i) ==> ExecutedBefore(log + [e], |log| + 1, id, b, i)
    ensures CompleteBefore(log, p, id, b) ==> CompleteBefore(log + [e], p, id, b)
    ensures CompleteBefore(log, p, id, b) ==> CompleteBefore(log + [e], |log| + 1, id, b)
  {
    hide Decide;
    forall i, q: nat | ExecutedBefore(log, q, id, b, i) && q <= |log| ensures ExecutedBefore(log + [e], q, id, b, i) {
      var x :| 0 <= x < q && x < |log| && log[x].Executed? && log[x].run == id && log[x].fact == i && 0 <= i < |b.items|
        && Decide(b.items[i], log[x].decision.repo, log[x].decision.nextId) == Act(log[x].decision.d);
      assert (log + [e])[x] == log[x];
    }
    forall i | ExecutedBefore(log, p, id, b, i) ensures ExecutedBefore(log + [e], |log| + 1, id, b, i) {
      var x :| 0 <= x < p && x < |log| && log[x].Executed? && log[x].run == id && log[x].fact == i && 0 <= i < |b.items|
        && Decide(b.items[i], log[x].decision.repo, log[x].decision.nextId) == Act(log[x].decision.d);
      assert (log + [e])[x] == log[x];
    }
    if CompleteBefore(log, p, id, b) {
      var t :| 0 <= t < p && t < |log| && log[t] == TombstonesApplied(id) && AllExecutedBefore(log, t, id, b);
      assert (log + [e])[t] == log[t];
      assert AllExecutedBefore(log + [e], t, id, b);
    }
  }

  // ----- Every step keeps the invariant ------------------------------------------------

  /** s' is s with the entry e logged and the run id updated. */
  ghost predicate Logs(s: Sys, s': Sys, e: Entry, id: RunId, r': Run) {
    && s'.log == s.log + [e] && s'.runs == s.runs[id := r'] && s'.row.version >= s.row.version
    && (id in s.runs ==> s.runs[id].batch == r'.batch)
    && RunInv(s', id, r')
  }

  lemma QuietStep(s: Sys, s': Sys, id: RunId, r': Run)
    requires Inv(s) && s'.log == s.log && s'.row == s.row && s'.runs == s.runs[id := r'] && RunInv(s', id, r')
    requires id in s.runs ==> s.runs[id].batch == r'.batch
    ensures Inv(s')
  {
    hide ExecutedBefore, CompleteBefore, Decide;
  }

  lemma OthersKeep(s: Sys, s': Sys, e: Entry, id: RunId, r: Run)
    requires RunInv(s, id, r) && s'.log == s.log + [e] && s'.row.version >= s.row.version
    ensures RunInv(s', id, r)
  {
    LogGrows(s.log, e, |s.log|, id, r.batch);
    hide Decide;
    forall i | 0 <= i < r.next && r.disappeared == 0 ensures ExecutedBefore(s'.log, |s'.log|, id, r.batch, i) {
      assert ExecutedBefore(s.log, |s.log|, id, r.batch, i);
    }
  }

  /** What the logged entry must satisfy. */
  ghost predicate EntryFits(s: Sys, s': Sys, e: Entry, id: RunId, r': Run) {
    && (IsChange(e) ==> e.version == s.row.version && s'.row.version == e.version + 1)
    && (!IsChange(e) ==> s'.row == s.row)
    && (e.MarkedRequired? ==> s'.row.checkpoint == s.row.checkpoint && s'.row.reconciliationRequired)
    && (e.SwappedIn? ==> !s.row.reconciliationRequired && !s'.row.reconciliationRequired)
    && !e.Recovered?
    && (e.SwappedIn? || e.Recovered? ==> s'.row.checkpoint == Some(e.checkpoint))
    && (e.SwappedIn? ==> e.run == id && r'.batch.nextCheckpoint == Some(e.checkpoint)
                         && CompleteBefore(s.log, |s.log|, id, r'.batch))
  }

  lemma LoggedRuns(s: Sys, s': Sys, e: Entry, id: RunId, r': Run)
    requires Inv(s) && Logs(s, s', e, id, r')
    ensures forall k :: k in s'.runs ==> RunInv(s', k, s'.runs[k])
  {
    forall k | k in s'.runs ensures RunInv(s', k, s'.runs[k]) {
      if k != id {
        hide LogInv;
        OthersKeep(s, s', e, k, s.runs[k]);
      }
    }
  }

  lemma LoggedLog(s: Sys, s': Sys, e: Entry, id: RunId, r': Run)
    requires LogInv(s) && EntryFits(s, s', e, id, r')
    requires s'.log == s.log + [e] && s'.runs == s.runs[id := r'] && (id in s.runs ==> s.runs[id].batch == r'.batch)
    ensures LogInv(s')
  {
    hide InOrder, Blocked, StoredCheckpoint, ExecutedBefore, AllExecutedBefore, Decide;
    forall p | 0 <= p < |s'.log| && s'.log[p].SwappedIn?
      ensures s'.log[p].run in s'.runs
      ensures CompleteBefore(s'.log, p, s'.log[p].run, s'.runs[s'.log[p].run].batch)
    {
      var x := s'.log[p];
      var b := if x.run == id then r'.batch else s.runs[x.run].batch;
      LogGrows(s.log, e, p, x.run, b);
    }
    BlockedAppend(s.log, e);
    InOrderAppend(s.log, e);
    hide CompleteBefore, InOrder, Blocked, StoredCheckpoint;
  }

  lemma LoggedStep(s: Sys, s': Sys, e: Entry, id: RunId, r': Run)
    requires Inv(s) && Logs(s, s', e, id, r') && EntryFits(s, s', e, id, r')
    ensures Inv(s')
  {
    LoggedRuns(s, s', e, id, r');
    hide RunInv, LogInv;
    LoggedLog(s, s', e, id, r');
  }

  lemma RecoverKeeps(s: Sys, s': Sys, e: Entry)
    requires Inv(s) && e.Recovered? && e.version == s.row.version && s'.log == s.log + [e] && s'.runs == s.runs
    requires s'.row.version == e.version + 1 && s'.row.checkpoint == Some(e.checkpoint)
    requires s.row.reconciliationRequired && !s'.row.reconciliationRequired
    ensures Inv(s')
  {
    forall k | k in s'.runs ensures RunInv(s', k, s'.runs[k]) {
      OthersKeep(s, s', e, k, s.runs[k]);
    }
    forall p | 0 <= p < |s'.log| && s'.log[p].SwappedIn?
      ensures CompleteBefore(s'.log, p, s'.log[p].run, s'.runs[s'.log[p].run].batch)
    {
      LogGrows(s.log, e, p, s'.log[p].run, s.runs[s'.log[p].run].batch);
    }
    BlockedAppend(s.log, e);
    InOrderAppend(s.log, e);
    hide ExecutedBefore, CompleteBefore, Decide, RunInv, InOrder, Blocked, StoredCheckpoint;
  }

  lemma DecideKeeps(s: Sys, id: RunId, r: Run)
    requires Inv(s) && id in s.runs && r == s.runs[id] && r.phase.Scanning? && r.pending.None? && r.next < |r.batch.items|
    ensures Inv(DecideStep(s, id, r))
  {
    hide Decide;
    var s' := DecideStep(s, id, r);
    QuietStep(s, s', id, s'.runs[id]);
  }

  lemma ExecuteKeeps(s: Sys, id: RunId, r: Run)
    requires Inv(s) && id in s.runs && r == s.runs[id] && r.phase.Scanning? && r.pending.Some?
    ensures Inv(ExecuteStep(s, id, r))
  {
    hide Decide, ExecuteMany;
    var s' := ExecuteStep(s, id, r);
    if ExecuteMany(s.world.repo, [r.pending.value.d]).Ok? {
      var e, r' := Executed(id, r.next, r.pending.value), s'.runs[id];
      LogGrows(s.log, e, |s.log|, id, r.batch);
      assert s'.log[|s.log|] == e;
      assert ExecutedBefore(s'.log, |s'.log|, id, r.batch, r.next);
      forall i | 0 <= i < r.next && r.disappeared == 0 ensures ExecutedBefore(s'.log, |s'.log|, id, r.batch, i) {
        assert ExecutedBefore(s.log, |s.log|, id, r.batch, i);
      }
      LoggedStep(s, s', e, id, r');
    } else {
      QuietStep(s, s', id, s'.runs[id]);
    }
  }

  lemma JudgeKeeps(s: Sys, id: RunId, r: Run)
    requires Inv(s) && id in s.runs && r == s.runs[id] && r.phase.Scanning? && r.pending.None? && r.next == |r.batch.items|
    ensures Inv(JudgeStep(s, id, r))
  {
    hide Decide, TombstoneTargets;
    var s' := JudgeStep(s, id, r);
    QuietStep(s, s', id, s'.runs[id]);
  }

  lemma ApplyKeeps(s: Sys, id: RunId, r: Run)
    requires Inv(s) && id in s.runs && r == s.runs[id] && r.phase.Judged?
    ensures Inv(ApplyStep(s, id, r))
  {
    hide Decide, DeactivateAll;
    var s' := ApplyStep(s, id, r);
    if DeactivateAll(s.world, r.phase.targets).1.None? {
      var e := TombstonesApplied(id);
      LogGrows(s.log, e, |s.log|, id, r.batch);
      assert s'.log[|s.log|] == e;
      assert AllExecutedBefore(s'.log, |s.log|, id, r.batch);
      assert CompleteBefore(s'.log, |s'.log|, id, r.batch);
      assert forall i :: ExecutedBefore(s.log, |s.log|, id, r.batch, i) ==> ExecutedBefore(s'.log, |s'.log|, id, r.batch, i);
      hide ExecutedBefore, CompleteBefore;
      LoggedStep(s, s', e, id, s'.runs[id]);
    } else {
      QuietStep(s, s', id, s'.runs[id]);
    }
  }

  lemma EndedKeeps(s: Sys, s': Sys, e: Entry, id: RunId, r: Run)
    requires RunInv(s, id, r) && s'.log == s.log + [e] && s'.row.version >= s.row.version
    ensures RunInv(s', id, r.(phase := Ended))
  {
    OthersKeep(s, s', e, id, r);
    hide Decide, ExecutedBefore, CompleteBefore;
  }

  lemma ChangeKeeps(s: Sys, id: RunId, r: Run)
    requires Inv(s) && id in s.runs && r == s.runs[id]
    ensures r.phase.Applied? && r.batch.nextCheckpoint.Some? ==> Inv(SwapStep(s, id, r))
    ensures r.phase.Blocking? ==> Inv(MarkStep(s, id, r))
    ensures Inv(Put(s, id, r.(phase := Ended)))
  {
    hide Decide;
    QuietStep(s, Put(s, id, r.(phase := Ended)), id, r.(phase := Ended));
    if r.phase.Applied? && r.batch.nextCheckpoint.Some? && SwapStep(s, id, r).row != s.row {
      var e := SwappedIn(id, r.read.version, r.batch.nextCheckpoint.value);
      EndedKeeps(s, SwapStep(s, id, r), e, id, r);
      LoggedStep(s, SwapStep(s, id, r), e, id, r.(phase := Ended));
    }
    if r.phase.Blocking? && MarkStep(s, id, r).row != s.row {
      var e := MarkedRequired(r.read.version);
      EndedKeeps(s, MarkStep(s, id, r), e, id, r);
      LoggedStep(s, MarkStep(s, id, r), e, id, r.(phase := Ended));
    }
  }

  lemma NextKeeps(s: Sys, e: Event)
    requires Inv(s)
    ensures Inv(Next(s, e))
  {
    hide RunInv, LogInv, DecideStep, ExecuteStep, JudgeStep, ApplyStep, SwapStep, MarkStep, RunBatch;
    match e {
      case FullSync(b) => SameRecord(s, Next(s, e));
      case Start(id, b) =>
        if Next(s, e) != s {
          StartKeeps(s, id, b);
        }
      case RecoverBy(expected, c) =>
        if Recover(s.row, expected, c).Some? {
          RecoverKeeps(s, Next(s, e), Recovered(expected, c));
        }
      case DecideNext(id) => if id in s.runs && CanDecide(s.runs[id]) { DecideKeeps(s, id, s.runs[id]); }
      case ExecutePending(id) =>
        if id in s.runs && s.runs[id].phase.Scanning? && s.runs[id].pending.Some? { ExecuteKeeps(s, id, s.runs[id]); }
      case JudgeTombstones(id) => if id in s.runs && CanJudge(s.runs[id]) { JudgeKeeps(s, id, s.runs[id]); }
      case ApplyTombstones(id) => if id in s.runs && s.runs[id].phase.Judged? { ApplyKeeps(s, id, s.runs[id]); }
      case SwapCheckpoint(id) => if id in s.runs { ChangeKeeps(s, id, s.runs[id]); }
      case MarkBlocked(id) => if id in s.runs { ChangeKeeps(s, id, s.runs[id]); }
      case Crash(id) => if id in s.runs { ChangeKeeps(s, id, s.runs[id]); }
    }
  }

  lemma SameRecord(s: Sys, s': Sys)
    requires Inv(s) && s'.row == s.row && s'.runs == s.runs && s'.log == s.log
    ensures Inv(s')
  {
    hide ExecutedBefore, CompleteBefore, Decide;
  }

  lemma StartKeeps(s: Sys, id: RunId, b: Batch)
    requires Inv(s) && id !in s.runs && Admissible(b)
    ensures Inv(Put(s, id, Run(s.row, b, 0, None, 0, Scanning)))
  {
    hide ExecutedBefore, CompleteBefore, Decide;
    var r := Run(s.row, b, 0, None, 0, Scanning);
    QuietStep(s, Put(s, id, r), id, r);
  }

  lemma {:induction false} PlayKeeps(s: Sys, events: seq<Event>)
    requires Inv(s)
    ensures Inv(Play(s, events))
    decreases |events|
  {
    hide Inv;
    if events != [] {
      NextKeeps(s, events[0]);
      PlayKeeps(Next(s, events[0]), events[1..]);
    }
  }

  /** The checkpoint protocol, for every interleaving from an empty state row: no
      version is swapped twice; each swap stored its own run's checkpoint after that
      run had executed a decision on every fact, none skipped as disappeared, and
      then its tombstones; the stored checkpoint is the last one put in place; and there
      is no swap between a refused checkpoint and the recovery from it. */
  lemma CheckpointProtocol(w: World, events: seq<Event>)
    ensures var s := Play(Begin(w), events);
      && (forall p, q :: 0 <= p < q < |s.log| && s.log[p].SwappedIn? && s.log[q].SwappedIn? ==>
            s.log[p].version < s.log[q].version)
      && (forall p :: 0 <= p < |s.log| && s.log[p].SwappedIn? ==>
            && s.log[p].run in s.runs
            && s.runs[s.log[p].run].batch.nextCheckpoint == Some(s.log[p].checkpoint)
            && CompleteBefore(s.log, p, s.log[p].run, s.runs[s.log[p].run].batch))
      && s.row.checkpoint == StoredCheckpoint(s.log)
      && (s.row.reconciliationRequired <==> Blocked(s.log)) && InOrder(s.log)
  {
    PlayKeeps(Begin(w), events);
    hide CompleteBefore, Next, Play;
  }

  // ----- A run that nobody disturbs ------------------------------------------------------

  function Deciding(id: RunId, n: nat): seq<Event> {
    if n == 0 then [] else [DecideNext(id), ExecutePending(id)] + Deciding(id, n - 1)
  }

  function WholeRun(id: RunId, b: Batch): seq<Event> {
    [Start(id, b)] + Deciding(id, |b.items|) + [JudgeTombstones(id), ApplyTombstones(id), SwapCheckpoint(id)]
  }

  lemma {:induction false} PlayJoins(s: Sys, early: seq<Event>, late: seq<Event>)
    ensures Play(s, early + late) == Play(Play(s, early), late)
    decreases |early|
  {
    hide Next;
    if early == [] {
      assert early + late == late;
    } else {
      assert (early + late)[1..] == early[1..] + late;
      PlayJoins(Next(s, early[0]), early[1..], late);
    }
  }

  lemma PlayTwo(s: Sys, a: Event, b: Event, rest: seq<Event>)
    ensures Play(s, [a, b] + rest) == Play(Next(Next(s, a), b), rest)
  {
    hide Next;
    var all := [a, b] + rest;
    assert all[1..] == [b] + rest && all[1..][1..] == rest;
  }

  lemma OneFact(s: Sys, id: RunId)
    requires id in s.runs && CanDecide(s.runs[id])
    requires s.runs[id].batch.items[s.runs[id].next].fact.provider == s.runs[id].batch.provider
    ensures var o, r := s.runs[id].batch.items[s.runs[id].next], s.runs[id];
      var s' := Next(Next(s, DecideNext(id)), ExecutePending(id));
      Step(s.world, o).1.Done? ==>
        s'.world == Step(s.world, o).0 && s'.row == s.row && s'.runs == s.runs[id := r.(next := r.next + 1)]
  {
    hide Decide, ExecuteMany;
  }

  lemma ScanOne(w: World, provider: string, items: seq<Observed>)
    requires items != [] && Scan(w, provider, items).raised.None? && Scan(w, provider, items).disappeared == 0
    ensures Step(w, items[0]).1.Done? && items[0].fact.provider == provider
    ensures var rest := Scan(Step(w, items[0]).0, provider, items[1..]);
      rest.raised.None? && rest.disappeared == 0 && rest.w == Scan(w, provider, items).w
  {
    hide Step;
  }

  /** The run is at its fact number |items| - n, and so far no fact has disappeared. */
  ghost predicate AtFact(s: Sys, id: RunId, n: nat) {
    && id in s.runs && s.runs[id].phase.Scanning? && s.runs[id].pending.None? && n <= |s.runs[id].batch.items|
    && s.runs[id].next == |s.runs[id].batch.items| - n
  }

  /** What the scan of the facts that remain makes of the world. */
  function Remaining(s: Sys, b: Batch, n: nat): ScanResult
    requires n <= |b.items|
  {
    Scan(s.world, b.provider, b.items[|b.items| - n..])
  }

  lemma FactAlone(s: Sys, id: RunId, n: nat) returns (s': Sys)
    requires AtFact(s, id, n) && n > 0
    requires Remaining(s, s.runs[id].batch, n).raised.None? && Remaining(s, s.runs[id].batch, n).disappeared == 0
    ensures AtFact(s', id, n - 1) && s'.row == s.row && s'.runs == s.runs[id := s.runs[id].(next := s.runs[id].next + 1)]
    ensures var rest := Remaining(s', s.runs[id].batch, n - 1);
      rest.raised.None? && rest.disappeared == 0 && rest.w == Remaining(s, s.runs[id].batch, n).w
    ensures Play(s, Deciding(id, n)) == Play(s', Deciding(id, n - 1))
  {
    hide Step, Next, Play, Scan;
    var b := s.runs[id].batch;
    var rest := b.items[|b.items| - n..];
    assert rest[0] == b.items[s.runs[id].next] && rest[1..] == b.items[|b.items| - (n - 1)..];
    ScanOne(s.world, b.provider, rest);
    OneFact(s, id);
    PlayTwo(s, DecideNext(id), ExecutePending(id), Deciding(id, n - 1));
    s' := Next(Next(s, DecideNext(id)), ExecutePending(id));
  }

  lemma {:induction false} ScanAlone(s: Sys, id: RunId, n: nat)
    requires AtFact(s, id, n)
    requires Remaining(s, s.runs[id].batch, n).raised.None? && Remaining(s, s.runs[id].batch, n).disappeared == 0
    ensures var b, s' := s.runs[id].batch, Play(s, Deciding(id, n));
      && s'.world == Remaining(s, b, n).w && s'.row == s.row
      && s'.runs == s.runs[id := s.runs[id].(next := |b.items|)]
    decreases n
  {
    if n > 0 {
      hide Play, Deciding, Remaining;
      var s' := FactAlone(s, id, n);
      ScanAlone(s', id, n - 1);
    } else {
      hide Scan;
      ScanNothing(s.world, s.runs[id].batch.provider, s.runs[id].batch.items[|s.runs[id].batch.items|..]);
      assert s.runs[id := s.runs[id]] == s.runs;
    }
  }

  lemma ScanNothing(w: World, provider: string, items: seq<Observed>)
    requires items == []
    ensures Scan(w, provider, items).w == w
  {
  }

  lemma Endgame(s: Sys, id: RunId, w: World)
    requires id in s.runs && CanJudge(s.runs[id]) && s.runs[id].disappeared == 0 && Admissible(s.runs[id].batch)
    requires s.runs[id].batch.interruption.None? && s.row.version == s.runs[id].read.version && !s.row.reconciliationRequired
    requires exists seen :: Reconcile(s.world, s.runs[id].batch, seen) == (w, Completed)
    ensures var s' := Play(s, [JudgeTombstones(id), ApplyTombstones(id), SwapCheckpoint(id)]);
      s'.world == w && s'.row == State(s.runs[id].batch.nextCheckpoint, s.row.version + 1, false)
  {
    hide TombstoneTargets, DeactivateAll;
    PlayTwo(s, JudgeTombstones(id), ApplyTombstones(id), [SwapCheckpoint(id)]);
    assert [JudgeTombstones(id), ApplyTombstones(id)] + [SwapCheckpoint(id)]
        == [JudgeTombstones(id), ApplyTombstones(id), SwapCheckpoint(id)];
    var s2 := Next(Next(s, JudgeTombstones(id)), ApplyTombstones(id));
    assert Play(s2, [SwapCheckpoint(id)]) == Next(s2, SwapCheckpoint(id));
  }

  /** The protocol's steps, taken one after the other, are the run: if it completes, they
      leave the same tables and store its checkpoint. */
  lemma UndisturbedRunSwaps(s: Sys, id: RunId, b: Batch)
    requires id !in s.runs && !s.row.reconciliationRequired && Admissible(b) && RunBatch(s.world, b).1 == Completed
    ensures var s' := Play(s, WholeRun(id, b));
      s'.world == RunBatch(s.world, b).0 && s'.row == State(b.nextCheckpoint, s.row.version + 1, false)
  {
    var started := Next(s, Start(id, b));
    assert b.items[|b.items| - |b.items|..] == b.items;
    var tail := [JudgeTombstones(id), ApplyTombstones(id), SwapCheckpoint(id)];
    assert WholeRun(id, b) == [Start(id, b)] + (Deciding(id, |b.items|) + tail);
    assert WholeRun(id, b)[1..] == Deciding(id, |b.items|) + tail;
    hide Deciding, Reconcile, Scan;
    ScanAlone(started, id, |b.items|);
    PlayJoins(started, Deciding(id, |b.items|), tail);
    var scanned := Play(started, Deciding(id, |b.items|));
    hide Next;
    Endgame(scanned, id, RunBatch(s.world, b).0);
  }
}
