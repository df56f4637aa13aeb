/** The engine over the in-memory repository: its loops and in-place changes refine
    the run as a function of the world. */
module Engine {
  import opened Prelude
  import opened WorldModel
  import opened Matcher
  import opened Reconciliation
  import opened InMemoryStore
  import SyncState

  /** Fresh objects for a decision's values. */
  method Materialize(actions: seq<Action>) returns (out: seq<StoreAction>)
    ensures ActionValues(out) == actions
    ensures fresh(Objects(out)) && Apart(out, {})
  {
    if actions == [] {
      return [];
    }
    var a := actions[0];
    var source: AssetSource? := null;
    if a.source.Some? {
      source := new AssetSource(a.source.value);
    }
    var rest := Materialize(actions[1..]);
    var head := StoreAction(a.kind, a.asset, a.blob, source);
    out := [head] + rest;
    assert ActionValue(head) == a;
    HeadAndRest(head, rest);
  }

  lemma HeadAndRest(head: StoreAction, rest: seq<StoreAction>)
    ensures Objects([head] + rest) == (if head.source == null then {} else {head.source}) + Objects(rest)
    ensures ActionValues([head] + rest) == [ActionValue(head)] + ActionValues(rest)
    ensures Apart(rest, {}) && (head.source != null ==> head.source !in Objects(rest)) ==> Apart([head] + rest, {})
  {
    var all := [head] + rest;
    assert head.source != null ==> all[0].source in Objects(all);
    forall o | o in Objects(rest) ensures o in Objects(all) {
      var i :| 0 <= i < |rest| && rest[i].source == o;
      assert all[i + 1].source == o;
    }
    forall i, j | 0 <= i < j < |all| && all[i].source != null && Apart(rest, {})
               && (head.source != null ==> head.source !in Objects(rest))
      ensures all[i].source != all[j].source
    {
      if all[j].source != null {
        assert rest[j - 1].source in Objects(rest);
      }
      if i > 0 {
        assert rest[i - 1].source != rest[j - 1].source;
      }
    }
  }

  /** What connecting and discovering yields: a batch, a refused checkpoint, or another exception. */
  datatype Discovery = Discovered(batch: Batch) | DiscoveryRefused | DiscoveryRaised(e: Error)

  datatype SyncEnd =
    | Advanced(state: SyncState.State)
    | ReconciliationRequired
    | CheckpointRefused
    | DiscoveryFailed(e: Error)
    | NotIncremental
    | OtherProvider
    | MissingNextCheckpoint
    | RunEnded(end: RunEnd)
    | CheckpointConflict

  class SyncEngine {
    const repository: InMemoryRepository
    const states: SyncState.StateStore
    const providerName: string
    var nextId: Id
    var clock: int

    ghost predicate Valid()
      reads this, repository
    {
      repository.Valid()
    }

    function Snapshot(): World
      reads this, repository, repository.sources.Values
    {
      World(repository.Contents(), nextId, clock)
    }

    constructor (provider: string)
      ensures Valid() && fresh(repository) && fresh(repository.sources.Values) && fresh(states)
      ensures providerName == provider && Snapshot() == World(EMPTY_REPO, 0, 0) && states.row == SyncState.INITIAL
    {
      repository := new InMemoryRepository();
      states := new SyncState.StateStore();
      providerName := provider;
      nextId, clock := 0, 0;
    }

    /** Decide on one fact, reading its content when the first decision asks for it. */
    method ProcessFact(o: Observed) returns (outcome: Outcome)
      requires Valid()
      modifies this, repository, repository.sources.Values
      ensures Valid()
      ensures forall x :: x in repository.sources.Values ==> x in old(repository.sources.Values) || fresh(x)
      ensures (Snapshot(), outcome) == Step(old(Snapshot()), o)
    {
      hide Match, WorldModel.ExecuteMany;
      var fact := o.fact;
      var m := Match(fact, repository.Contents(), nextId);
      if m.Err? {
        return Raised(m.error);
      }
      var decision := m.value;
      if CONTENT_REQUIREMENTS * decision.requirements != {} {
        match o.body {
          case Disappeared => return Skipped;
          case Unreadable => return Raised(ReadFailed);
          case Bytes(evidence) => fact := fact.WithEvidence(evidence);
        }
        m := Match(fact, repository.Contents(), nextId);
        if m.Err? {
          return Raised(m.error);
        }
        decision := m.value;
      }
      if decision.requirements != {} {
        return Raised(UnsatisfiedRequirements);
      }
      assert Decide(o, repository.Contents(), nextId) == Act(decision);
      var failed := Execute(decision);
      if failed.Some? {
        return Raised(failed.value);
      }
      nextId := nextId + 3;
      return Done;
    }

    method Execute(decision: Decision) returns (failed: Option<Error>)
      requires Valid()
      modifies repository, repository.sources.Values
      ensures Valid()
      ensures forall x :: x in repository.sources.Values ==> x in old(repository.sources.Values) || fresh(x)
      ensures match WorldModel.ExecuteMany(old(repository.Contents()), [decision])
        case Err(e) => failed == Some(e) && repository.Contents() == old(repository.Contents())
        case Ok(r) => failed == None && repository.Contents() == r
    {
      hide WorldModel.ExecuteMany, AllApart, Apart;
      var actions := Materialize(decision.actions);
      var sd := StoreDecision(actions, decision.requirements, decision.reason);
      SingleDecision(sd, repository.sources.Values);
      failed := repository.ExecuteMany([sd]);
    }

    /** The facts in order; the counters and the seen identifiers grow with them. */
    method ScanFacts(provider: string, items: seq<Observed>)
      returns (seen: set<string>, disappeared: nat, raised: Option<Error>)
      requires Valid()
      modifies this, repository, repository.sources.Values
      ensures Valid()
      ensures forall x :: x in repository.sources.Values ==> x in old(repository.sources.Values) || fresh(x)
      ensures ScanResult(Snapshot(), seen, disappeared, raised) == Scan(old(Snapshot()), provider, items)
    {
      hide Step, Snapshot, Scan;
      seen, disappeared, raised := {}, 0, None;
      ghost var total := Scan(Snapshot(), provider, items);
      assert items[0..] == items;
      for i := 0 to |items|
        invariant Valid()
        invariant forall x :: x in repository.sources.Values ==> x in old(repository.sources.Values) || fresh(x)
        invariant Continues(total, seen, disappeared, Scan(Snapshot(), provider, items[i..]))
      {
        ScanNext(Snapshot(), provider, items, i);
        if items[i].fact.provider != provider {
          return seen, disappeared, Some(MixedProviders);
        }
        seen := seen + SeenBy(items[i].fact);
        var outcome := ProcessFact(items[i]);
        if outcome.Raised? {
          return seen, disappeared, Some(outcome.e);
        }
        if outcome.Skipped? {
          disappeared := disappeared + 1;
        }
      }
      assert items[|items|..] == [];
      ScanNone(Snapshot(), provider);
    }

    /** `deactivate_source(deepcopy(source))`: the stored object is not touched. */
    method DeactivateCopy(source: AssetSource, now: int) returns (d: StoreDecision)
      ensures fresh(Objects(d.actions)) && Apart(d.actions, {})
      ensures DecisionValue(d) == Decision([DeactivatingSource(Deactivated(source.Value(), now))], {}, Unexplained)
    {
      var copy := new AssetSource(source.Value());
      copy.isActive := false;
      copy.deletedAt := Some(now);
      d := StoreDecision([StoreAction(DeactivateSource, None, None, copy)], {}, Unexplained);
    }

    /** One more decision, on an object no other decision has. */
    method AddDeactivation(ds: seq<StoreDecision>, source: AssetSource, now: int, ghost targets: seq<Source>)
      returns (more: seq<StoreDecision>)
      requires AllApart(ds, {}) && DecisionValues(ds) == Deactivations(targets, now - |targets|)
      ensures |more| == |ds| + 1 && AllApart(more, {}) && forall o :: o in AllObjects(more) ==> o in AllObjects(ds) || fresh(o)
      ensures DecisionValues(more) == Deactivations(targets + [source.Value()], now - |targets|)
    {
      hide Deactivations, AllApart, DecisionValues, DecisionValue, Apart;
      var d := DeactivateCopy(source, now);
      DeactivationsAppend(targets, source.Value(), now - |targets|);
      more := ds + [d];
      BatchAppend(ds, d);
    }

    method Tombstones(provider: string, tombstones: seq<Tombstone>)
      returns (ds: seq<StoreDecision>, failed: Option<Error>, ghost targets: seq<Source>)
      requires Valid()
      ensures fresh(AllObjects(ds)) && AllApart(ds, {})
      ensures match TombstoneTargets(repository.Contents(), provider, tombstones)
        case Err(e) => failed == Some(e)
        case Ok(found) => failed == None && targets == found && DecisionValues(ds) == Deactivations(found, clock)
    {
      hide FindSource, TombstoneTargets, Deactivations, AllApart, DecisionValues, Prefixed;
      hide InMemoryRepository.Contents, InMemoryRepository.Valid;
      ds, failed, targets := [], None, [];
      NoDecisions(clock);
      ghost var r := repository.Contents();
      assert tombstones[0..] == tombstones;
      PrefixedNone(TombstoneTargets(r, provider, tombstones));
      for i := 0 to |tombstones|
        invariant fresh(AllObjects(ds)) && AllApart(ds, {})
        invariant |ds| == |targets| && DecisionValues(ds) == Deactivations(targets, clock)
        invariant TombstoneTargets(r, provider, tombstones)
          == Prefixed(targets, TombstoneTargets(r, provider, tombstones[i..]))
      {
        TargetsNext(r, provider, tombstones, i, targets);
        if tombstones[i].provider != provider {
          return ds, Some(ForeignTombstone), targets;
        }
        var found := repository.FindSource(tombstones[i].provider, tombstones[i].externalId);
        if found.Err? {
          return ds, Some(found.error), targets;
        }
        var source := found.value;
        if source != null && source.isActive {
          ds := AddDeactivation(ds, source, clock + |ds|, targets);
          targets := targets + [source.Value()];
        }
      }
      TargetsNone(r, provider, tombstones, targets);
    }

    method AddIfUnseen(ds: seq<StoreDecision>, source: AssetSource, seen: set<string>, ghost missing: seq<Source>)
      returns (more: seq<StoreDecision>)
      requires AllApart(ds, {}) && |ds| == |missing| && DecisionValues(ds) == Deactivations(missing, clock)
      ensures AllApart(more, {}) && forall o :: o in AllObjects(more) ==> o in AllObjects(ds) || fresh(o)
      ensures var missing' := missing + Unless(WasSeen(source.Value(), seen), source.Value());
        |more| == |missing'| && DecisionValues(more) == Deactivations(missing', clock)
    {
      more := ds;
      if source.base.externalId.Some? && source.base.externalId.value in seen {
        assert missing + [] == missing;
      } else {
        more := AddDeactivation(ds, source, clock + |ds|, missing);
      }
    }

    /** One deactivation for each listed source that was not seen. */
    method UnseenDecisions(active: seq<AssetSource>, seen: set<string>, ghost values: seq<Source>)
      returns (ds: seq<StoreDecision>, ghost missing: seq<Source>)
      requires |values| == |active| && forall i :: 0 <= i < |active| ==> active[i].Value() == values[i]
      ensures fresh(AllObjects(ds)) && AllApart(ds, {})
      ensures missing == Unseen(values, seen)
      ensures |ds| == |missing| && DecisionValues(ds) == Deactivations(missing, clock)
    {
      hide *;
      ds, missing := [], [];
      NoDecisions(clock);
      UnseenNone(seen);
      assert values[..0] == [];
      for i := 0 to |active|
        invariant fresh(AllObjects(ds)) && AllApart(ds, {})
        invariant |ds| == |missing| && DecisionValues(ds) == Deactivations(missing, clock)
        invariant missing == Unseen(values[..i], seen)
        invariant forall i :: 0 <= i < |active| ==> active[i].Value() == values[i]
      {
        UnseenAppend(values[..i], values[i], seen);
        assert values[..i + 1] == values[..i] + [values[i]];
        ds := AddIfUnseen(ds, active[i], seen, missing);
        missing := missing + Unless(WasSeen(values[i], seen), values[i]);
      }
      assert values[..|active|] == values;
    }

    method MissingSources(provider: string, seen: set<string>)
      returns (ds: seq<StoreDecision>, ghost missing: seq<Source>)
      requires Valid()
      ensures fresh(AllObjects(ds)) && AllApart(ds, {})
      ensures missing == Unseen(ActiveSources(repository.Contents(), provider), seen)
      ensures |ds| == |missing| && DecisionValues(ds) == Deactivations(missing, clock)
    {
      hide Deactivations, Unseen, ActiveSources, AllApart, AllObjects, InMemoryRepository.Contents;
      var active := repository.ListActiveSources(provider);
      ds, missing := UnseenDecisions(active, seen, ActiveSources(repository.Contents(), provider));
    }

    /** `execute_many` on deactivations alone. */
    method TurnOff(ds: seq<StoreDecision>, ghost sources: seq<Source>) returns (failed: Option<Error>)
      requires Valid() && AllApart(ds, {}) && AllObjects(ds) !! repository.sources.Values
      requires |ds| == |sources| && DecisionValues(ds) == Deactivations(sources, clock)
      modifies this`clock, repository, repository.sources.Values, AllObjects(ds)
      ensures Valid()
      ensures forall x :: x in repository.sources.Values ==> x in old(repository.sources.Values) || x in AllObjects(ds) || fresh(x)
      ensures (Snapshot(), failed) == DeactivateAll(old(Snapshot()), sources)
    {
      hide Deactivations, WorldModel.ExecuteMany;
      ApartFresh(ds, repository.sources.Values);
      failed := repository.ExecuteMany(ds);
      clock := clock + |ds|;
    }

    method Finish(b: Batch, seen: set<string>) returns (end: RunEnd)
      requires Valid()
      modifies this, repository, repository.sources.Values
      ensures Valid()
      ensures forall x :: x in repository.sources.Values ==> x in old(repository.sources.Values) || fresh(x)
      ensures (Snapshot(), end) == Reconcile(old(Snapshot()), b, seen)
    {
      hide DeactivateAll, TombstoneTargets, Deactivations, AllApart, DecisionValues, AllObjects, ActiveSources, Unseen, InMemoryRepository.Contents;
      var ds, failed, targets := Tombstones(b.provider, b.tombstones);
      if failed.Some? {
        return Failed(failed.value);
      }
      assert AllObjects(ds) !! repository.sources.Values;
      failed := TurnOff(ds, targets);
      if failed.Some? {
        return Failed(failed.value);
      }
      if b.mode.FullAuthoritative? {
        ghost var missing;
        ds, missing := MissingSources(b.provider, seen);
        assert AllObjects(ds) !! repository.sources.Values;
        failed := TurnOff(ds, missing);
        if failed.Some? {
          return Failed(failed.value);
        }
      }
      return Completed;
    }

    /** One batch, run against the stored objects: the run as a function of the world. */
    method RunBatch(b: Batch) returns (end: RunEnd)
      requires Valid()
      modifies this, repository, repository.sources.Values
      ensures Valid()
      ensures forall x :: x in repository.sources.Values ==> x in old(repository.sources.Values) || fresh(x)
      ensures (Snapshot(), end) == Reconciliation.RunBatch(old(Snapshot()), b)
    {
      hide Scan, Reconcile;
      var seen, disappeared, raised := ScanFacts(b.provider, b.items);
      if raised.Some? {
        return Failed(raised.value);
      }
      if b.interruption.Some? {
        return Failed(b.interruption.value);
      }
      if disappeared > 0 {
        return Incomplete(disappeared);
      }
      end := Finish(b, seen);
    }

    /** The complete authoritative inventory of the engine's provider. */
    method SyncOnce(items: seq<Observed>, interruption: Option<Error>) returns (end: RunEnd)
      requires Valid()
      modifies this, repository, repository.sources.Values
      ensures Valid()
      ensures (Snapshot(), end)
        == Reconciliation.RunBatch(old(Snapshot()), Batch(providerName, FullAuthoritative, items, interruption, None, []))
    {
      end := RunBatch(Batch(providerName, FullAuthoritative, items, interruption, None, []));
    }

    /** One incremental batch, its checkpoint swapped in last. `Interfere` stands for
        every other writer of the state row. */
    method SyncIncremental(discover: SyncState.State -> Discovery) returns (end: SyncEnd)
      requires Valid()
      modifies this, repository, repository.sources.Values, states
      ensures Valid()
      ensures end.Advanced? ==>
        var state := old(states.row); var d := discover(state);
        && !state.reconciliationRequired
        && d.Discovered? && d.batch.mode.IncrementalNonAuthoritative? && d.batch.provider == providerName
        && d.batch.nextCheckpoint.Some? && d.batch.nextCheckpoint.value != ""
        && (Snapshot(), Completed) == Reconciliation.RunBatch(old(Snapshot()), d.batch)
        && states.row == end.state
        && end.state == SyncState.State(d.batch.nextCheckpoint, state.version + 1, false)
      ensures end.CheckpointConflict? ==> states.row.version > old(states.row.version)
      ensures end.ReconciliationRequired? ==> old(states.row.reconciliationRequired) && states.row == old(states.row)
      ensures end.CheckpointRefused? ==>
        states.row == old(states.row).(reconciliationRequired := true, version := old(states.row.version) + 1)
      ensures !end.Advanced? && states.row.version == old(states.row.version) ==> states.row == old(states.row)
      ensures end.RunEnded? ==> end.end != Completed
      ensures end.DiscoveryFailed? <==>
        !old(states.row).reconciliationRequired && discover(old(states.row)).DiscoveryRaised?
      ensures end.DiscoveryFailed? ==> states.row == old(states.row) && Snapshot() == old(Snapshot())
      ensures end.ReconciliationRequired? || end.NotIncremental? || end.OtherProvider? || end.MissingNextCheckpoint? ==>
        Snapshot() == old(Snapshot())
    {
      var state := states.row;
      if state.reconciliationRequired {
        return ReconciliationRequired;
      }
      var d := discover(state);
      if d.DiscoveryRefused? {
        end := Block(state);
        return;
      }
      if d.DiscoveryRaised? {
        return DiscoveryFailed(d.e);
      }
      if !d.batch.mode.IncrementalNonAuthoritative? {
        return NotIncremental;
      }
      if d.batch.provider != providerName {
        return OtherProvider;
      }
      if d.batch.nextCheckpoint.None? || d.batch.nextCheckpoint.value == "" {
        return MissingNextCheckpoint;
      }
      hide Reconciliation.RunBatch, Snapshot;
      var ran := RunBatch(d.batch);
      if ran == Failed(InvalidCheckpoint) {
        end := Block(state);
        return;
      }
      if ran != Completed {
        return RunEnded(ran);
      }
      states.Interfere();
      var advanced := states.CompareAndSwapCheckpoint(state.version, d.batch.nextCheckpoint.value);
      if advanced.None? {
        return CheckpointConflict;
      }
      return Advanced(advanced.value);
    }

    /** `_mark_reconciliation_required` */
    method Block(state: SyncState.State) returns (end: SyncEnd)
      requires states.row.version == state.version ==> states.row == state
      requires states.row.version >= state.version
      modifies states
      ensures states.row.version > state.version
      ensures end.CheckpointRefused? ==> states.row == state.(reconciliationRequired := true, version := state.version + 1)
      ensures end.CheckpointRefused? || end.CheckpointConflict?
    {
      states.Interfere();
      var marked := states.MarkReconciliationRequired(state.version);
      if marked.None? {
        return CheckpointConflict;
      }
      return CheckpointRefused;
    }
  }

  function Unless(b: bool, s: Source): seq<Source> {
    if b then [] else [s]
  }

  lemma UnseenNone(seen: set<string>)
    ensures Unseen([], seen) == []
  {
  }

  lemma {:induction false} UnseenAppend(sources: seq<Source>, s: Source, seen: set<string>)
    ensures Unseen(sources + [s], seen) == Unseen(sources, seen) + Unless(WasSeen(s, seen), s)
    decreases |sources|
  {
    if sources == [] {
      var one := [s];
      assert one[1..] == [] && sources + one == one;
    } else {
      assert (sources + [s])[1..] == sources[1..] + [s];
      UnseenAppend(sources[1..], s, seen);
    }
  }

  lemma ApartFresh(ds: seq<StoreDecision>, stored: set<object>)
    requires AllApart(ds, {}) && AllObjects(ds) !! stored
    ensures AllApart(ds, stored)
  {
    forall i | 0 <= i < |ds| ensures Apart(ds[i].actions, stored) {
      ObjectsOf(ds, i);
    }
  }

  function Prefixed(targets: seq<Source>, rest: Result<seq<Source>, Error>): Result<seq<Source>, Error> {
    match rest
    case Err(e) => Err(e)
    case Ok(more) => Ok(targets + more)
  }

  lemma PrefixedNone(rest: Result<seq<Source>, Error>)
    ensures Prefixed([], rest) == rest
  {
    assert rest.Ok? ==> [] + rest.value == rest.value;
  }

  lemma NoDecisions(clock: int)
    ensures AllApart([], {}) && AllObjects([]) == {} && DecisionValues([]) == [] && Deactivations([], clock) == []
  {
  }

  lemma TargetsNone(r: Repo, p: string, tombstones: seq<Tombstone>, targets: seq<Source>)
    ensures Prefixed(targets, TombstoneTargets(r, p, tombstones[|tombstones|..])) == Ok(targets)
  {
    assert targets + [] == targets;
  }

  lemma TargetsNext(r: Repo, p: string, tombstones: seq<Tombstone>, i: nat, targets: seq<Source>)
    requires i < |tombstones|
    ensures Prefixed(targets, TombstoneTargets(r, p, tombstones[i..])) ==
      if tombstones[i].provider != p then Err(ForeignTombstone)
      else match FindSource(r, tombstones[i].provider, tombstones[i].externalId)
        case Err(e) => Err(e)
        case Ok(found) =>
          Prefixed(if found.Some? && found.value.isActive then targets + [found.value] else targets,
                   TombstoneTargets(r, p, tombstones[i + 1..]))
  {
    hide FindSource;
    assert tombstones[i..][1..] == tombstones[i + 1..];
    match FindSource(r, tombstones[i].provider, tombstones[i].externalId) {
      case Err(_) =>
      case Ok(found) =>
        match TombstoneTargets(r, p, tombstones[i + 1..]) {
          case Err(_) =>
          case Ok(rest) => assert found.Some? ==> targets + ([found.value] + rest) == targets + [found.value] + rest;
        }
    }
  }

  lemma {:induction false} DeactivationsAppend(sources: seq<Source>, s: Source, clock: int)
    ensures Deactivations(sources + [s], clock) == Deactivations(sources, clock)
      + [Decision([DeactivatingSource(Deactivated(s, clock + |sources|))], {}, Unexplained)]
    decreases |sources|
  {
    if sources == [] {
      var one := [s];
      assert one[1..] == [] && sources + one == one;
    } else {
      assert (sources + [s])[1..] == sources[1..] + [s];
      DeactivationsAppend(sources[1..], s, clock + 1);
    }
  }

  lemma BatchAppend(ds: seq<StoreDecision>, d: StoreDecision)
    ensures AllObjects(ds + [d]) == AllObjects(ds) + Objects(d.actions)
    ensures DecisionValues(ds + [d]) == DecisionValues(ds) + [DecisionValue(d)]
    ensures AllApart(ds, {}) && Apart(d.actions, {}) && AllObjects(ds) !! Objects(d.actions) ==> AllApart(ds + [d], {})
  {
    ObjectsAppend(ds, d);
    ValuesAppend(ds, d);
    hide AllObjects, Objects, DecisionValues, Apart;
    forall i | 0 <= i < |ds| ensures Objects((ds + [d])[i].actions) <= AllObjects(ds) {
      ObjectsOf(ds, i);
    }
  }

  lemma ValuesAppend(ds: seq<StoreDecision>, d: StoreDecision)
    ensures DecisionValues(ds + [d]) == DecisionValues(ds) + [DecisionValue(d)]
  {
    hide DecisionValue;
  }

  lemma ObjectsAppend(ds: seq<StoreDecision>, d: StoreDecision)
    ensures AllObjects(ds + [d]) == AllObjects(ds) + Objects(d.actions)
  {
    var all := ds + [d];
    forall o | o in AllObjects(ds) ensures o in AllObjects(all) {
      var i, j :| 0 <= i < |ds| && 0 <= j < |ds[i].actions| && ds[i].actions[j].source == o;
      assert all[i].actions[j].source == o;
    }
    forall o | o in Objects(d.actions) ensures o in AllObjects(all) {
      var j :| 0 <= j < |d.actions| && d.actions[j].source == o;
      assert all[|ds|].actions[j].source == o;
    }
  }

  /** What is left of a scan, on top of what the loop has counted. */
  ghost predicate Continues(total: ScanResult, seen: set<string>, disappeared: nat, rest: ScanResult) {
    && total.w == rest.w && total.seen == seen + rest.seen
    && total.disappeared == disappeared + rest.disappeared && total.raised == rest.raised
  }

  lemma ScanNext(w: World, p: string, items: seq<Observed>, i: nat)
    requires i < |items|
    ensures Scan(w, p, items[i..]) ==
      if items[i].fact.provider != p then ScanResult(w, {}, 0, Some(MixedProviders))
      else
        var (w', outcome) := Step(w, items[i]);
        if outcome.Raised? then ScanResult(w', SeenBy(items[i].fact), 0, Some(outcome.e))
        else
          var rest := Scan(w', p, items[i + 1..]);
          ScanResult(rest.w, SeenBy(items[i].fact) + rest.seen,
                     rest.disappeared + (if outcome.Skipped? then 1 else 0), rest.raised)
  {
    hide Step;
    assert items[i..][1..] == items[i + 1..];
  }

  lemma ScanNone(w: World, p: string)
    ensures Scan(w, p, []) == ScanResult(w, {}, 0, None)
  {
  }

  lemma SingleDecision(sd: StoreDecision, stored: set<object>)
    requires Apart(sd.actions, {}) && Objects(sd.actions) !! stored
    ensures AllApart([sd], stored) && AllObjects([sd]) == Objects(sd.actions)
    ensures DecisionValues([sd]) == [DecisionValue(sd)]
  {
    var ds := [sd];
    assert ds[1..] == [] && ds[0] == sd;
    forall o | o in Objects(sd.actions) ensures o in AllObjects(ds) {
      var j :| 0 <= j < |sd.actions| && sd.actions[j].source == o;
      assert ds[0].actions[j].source == o;
    }
  }
}
