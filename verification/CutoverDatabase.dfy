/** The cutover's view of the database: evidence that is compared between steps, and
    the one transaction that enables or disables the writers' identities. */
module CutoverDatabase {
  import opened Prelude

  type RowId = nat
  type RunId = nat

  datatype Provider = Nextcloud | Immich | Gmail | IntegrationTest

  /** The providers whose writers the cutover enables; the others are only preserved. */
  const MECHANISMS: seq<Provider> := [Nextcloud, Immich]

  datatype TableName = ProviderInstances | ProviderAccounts | ObservationScopes

  datatype Instance =
    | NextcloudFull | NextcloudIncremental | ImmichFull | ImmichIncremental | ImmichPerson | ImmichRelation | ImmichDaily

  datatype RunStatus = RunCompleted | RunFailed | RunInterrupted

  /** The counts of the tables no cutover writer may touch. */
  datatype FrozenCounts = FrozenCounts(
    personSources: nat, resourcePersonRelations: nat, providerSyncState: nat, statements: nat, enrichments: nat)

  /** Fingerprints stand for the digests of whole tables. */
  datatype Evidence = Evidence(
    frozen: seq<nat>,
    counts: FrozenCounts,
    sourceIds: set<(RowId, RowId)>,
    states: map<RowId, nat>,
    ledger: map<RunId, (Instance, RunStatus)>)

  // ----- Comparing evidence -------------------------------------------------------------

  /** What must not have changed, and what may only have grown. */
  predicate Preserved(before: Evidence, after: Evidence) {
    && before.frozen == after.frozen
    && before.counts == after.counts
    && before.sourceIds <= after.sourceIds
    && before.ledger.Keys <= after.ledger.Keys
    && (forall k :: k in before.states ==> (if k in after.states then after.states[k] else -1) >= before.states[k])
  }

  /** The runs the ledger gained. */
  function Added(before: Evidence, after: Evidence): set<RunId> {
    after.ledger.Keys - before.ledger.Keys
  }

  /** `compare`: with a pipeline, its one completed run must be all the ledger gained. */
  predicate Compare(before: Evidence, after: Evidence, pipeline: Option<Instance>) {
    Preserved(before, after) && (pipeline.Some? ==> AddsOne(before, after, pipeline.value))
  }

  predicate AddsOne(before: Evidence, after: Evidence, pipeline: Instance) {
    |Added(before, after)| == 1 && forall k :: k in Added(before, after) ==> after.ledger[k] == (pipeline, RunCompleted)
  }

  /** Steps that each compare well compare well as a whole. */
  lemma PreservedTransitive(a: Evidence, b: Evidence, c: Evidence)
    requires Preserved(a, b) && Preserved(b, c)
    ensures Preserved(a, c)
  {
    forall k | k in a.states ensures (if k in c.states then c.states[k] else -1) >= a.states[k] {
      assert k in b.states && k in c.states;
    }
  }

  /** Told on the fields: whole tables and their five counts as before, sources, runs and
      states only more. */
  predicate OnlyGrown(before: Evidence, after: Evidence) {
    && before.frozen == after.frozen
    && before.counts.personSources == after.counts.personSources
    && before.counts.resourcePersonRelations == after.counts.resourcePersonRelations
    && before.counts.providerSyncState == after.counts.providerSyncState
    && before.counts.statements == after.counts.statements
    && before.counts.enrichments == after.counts.enrichments
    && (forall s :: s in before.sourceIds ==> s in after.sourceIds)
    && (forall id :: id in before.ledger ==> id in after.ledger)
    && (forall k :: k in before.states ==> k in after.states && before.states[k] <= after.states[k])
  }

  /** And the ledger has one more run, a completed one of that pipeline. */
  predicate GainsRun(before: Evidence, after: Evidence, pipeline: Instance) {
    && OnlyGrown(before, after)
    && exists id :: id in after.ledger && id !in before.ledger && after.ledger[id] == (pipeline, RunCompleted)
        && forall k :: k in after.ledger ==> k in before.ledger || k == id
  }

  /** Which evidence a comparison lets pass. */
  lemma ComparesExactlyWhen(before: Evidence, after: Evidence, pipeline: Instance)
    ensures Compare(before, after, None) <==> OnlyGrown(before, after)
    ensures Compare(before, after, Some(pipeline)) <==> GainsRun(before, after, pipeline)
  {
    assert Preserved(before, after) <==> OnlyGrown(before, after);
    hide Preserved, OnlyGrown;
    if Compare(before, after, Some(pipeline)) {
      var id := TheOne(Added(before, after));
      assert id in Added(before, after);
      forall k | k in after.ledger ensures k in before.ledger || k == id {
        assert k in before.ledger || k in Added(before, after);
      }
    }
    if GainsRun(before, after, pipeline) {
      var id :| id in after.ledger && id !in before.ledger && after.ledger[id] == (pipeline, RunCompleted)
        && forall k :: k in after.ledger ==> k in before.ledger || k == id;
      assert Added(before, after) == {id};
    }
  }

  lemma GrownFields(before: Evidence, after: Evidence)
    requires OnlyGrown(before, after)
    ensures before.frozen == after.frozen && before.counts == after.counts
  {
  }

  /** A chain of evidence in which each step is the qualification of one pipeline. */
  predicate Qualifies(chain: seq<Evidence>, pipelines: seq<Instance>) {
    && |chain| == |pipelines| + 1
    && forall i :: 0 <= i < |pipelines| ==> GainsRun(chain[i], chain[i + 1], pipelines[i])
  }

  /** Over a whole qualification the ledger gains exactly one run per pipeline, each
      completed when it was compared, and nothing that is preserved has changed. */
  lemma {:induction false} QualificationRuns(chain: seq<Evidence>, pipelines: seq<Instance>, n: nat)
    returns (ids: seq<RunId>)
    requires Qualifies(chain, pipelines) && n <= |pipelines|
    ensures OnlyGrown(chain[0], chain[n])
    ensures chain[0].frozen == chain[n].frozen && chain[0].counts == chain[n].counts
    ensures |ids| == n && forall id :: id in ids <==> id in chain[n].ledger && id !in chain[0].ledger
    ensures forall i, j :: 0 <= i < j < n ==> ids[i] != ids[j]
    ensures forall i :: 0 <= i < n ==> CompletedIn(chain[i + 1], ids[i], pipelines[i])
    decreases n
  {
    hide CompletedIn, GainsRun;
    if n == 0 {
      ids := [];
    } else {
      hide OnlyGrown;
      var front := QualificationRuns(chain, pipelines, n - 1);
      assert GainsRun(chain[n - 1], chain[n - 1 + 1], pipelines[n - 1]);
      var id := OneMore(chain[0], chain[n - 1], chain[n], pipelines[n - 1]);
      ids := front + [id];
      GrownFields(chain[0], chain[n]);
    }
  }

  predicate CompletedIn(e: Evidence, id: RunId, pipeline: Instance) {
    id in e.ledger && e.ledger[id] == (pipeline, RunCompleted)
  }

  lemma OneMore(first: Evidence, before: Evidence, after: Evidence, pipeline: Instance) returns (id: RunId)
    requires OnlyGrown(first, before) && GainsRun(before, after, pipeline)
    ensures OnlyGrown(first, after) && first.counts == after.counts && CompletedIn(after, id, pipeline)
    ensures id !in before.ledger
    ensures forall k :: k in after.ledger && k !in first.ledger <==> (k in before.ledger && k !in first.ledger) || k == id
  {
    ComparesExactlyWhen(first, before, pipeline);
    ComparesExactlyWhen(before, after, pipeline);
    ComparesExactlyWhen(first, after, pipeline);
    PreservedTransitive(first, before, after);
    id :| id in after.ledger && id !in before.ledger && after.ledger[id] == (pipeline, RunCompleted)
      && forall k :: k in after.ledger ==> k in before.ledger || k == id;
  }

  lemma TheOne(s: set<RunId>) returns (id: RunId)
    requires |s| == 1
    ensures s == {id}
  {
    id :| id in s;
    assert |s - {id}| == 0;
  }

  // ----- Enabling and disabling ------------------------------------------------------

  datatype Plan = Plan(instances: map<Provider, RowId>, accounts: map<Provider, RowId>, scopes: map<Provider, RowId>) {
    /** Every provider has its instance and scope; the mechanisms have accounts. */
    predicate Valid() {
      && (forall p: Provider :: p in instances && p in scopes)
      && (forall p :: p in accounts <==> p in MECHANISMS)
    }

    function Of(t: TableName): map<Provider, RowId> {
      match t
      case ProviderInstances => instances
      case ProviderAccounts => accounts
      case ObservationScopes => scopes
    }

    /** The rows that enabling writes. */
    function Targets(t: TableName): set<RowId> {
      set p | p in MECHANISMS && p in Of(t) :: Of(t)[p]
    }
  }

  /** Which rows are enabled, table by table. */
  datatype Identities = Identities(instances: map<RowId, bool>, accounts: map<RowId, bool>, scopes: map<RowId, bool>) {
    function Of(t: TableName): map<RowId, bool> {
      match t
      case ProviderInstances => instances
      case ProviderAccounts => accounts
      case ObservationScopes => scopes
    }

    function With(t: TableName, rows: map<RowId, bool>): Identities {
      match t
      case ProviderInstances => this.(instances := rows)
      case ProviderAccounts => this.(accounts := rows)
      case ObservationScopes => this.(scopes := rows)
    }
  }

  /** Enabling writes the rows of two providers in each of the three tables. */
  lemma TargetsAre(plan: Plan)
    requires plan.Valid()
    ensures plan.Targets(ProviderInstances) == {plan.instances[Nextcloud], plan.instances[Immich]}
    ensures Nextcloud in plan.accounts && Immich in plan.accounts
    ensures plan.Targets(ProviderAccounts) == {plan.accounts[Nextcloud], plan.accounts[Immich]}
    ensures plan.Targets(ObservationScopes) == {plan.scopes[Nextcloud], plan.scopes[Immich]}
  {
    assert MECHANISMS == [Nextcloud, Immich];
    assert plan.Of(ProviderInstances) == plan.instances && plan.Of(ObservationScopes) == plan.scopes;
    assert Nextcloud in plan.instances && Immich in plan.instances && Nextcloud in plan.scopes && Immich in plan.scopes;
  }

  /** The targets set, everything else as it was. */
  ghost predicate SetTo(before: Identities, after: Identities, plan: Plan, enabled: bool)
  {
    forall t: TableName ::
      && after.Of(t).Keys == before.Of(t).Keys && plan.Targets(t) <= before.Of(t).Keys
      && (forall id :: id in before.Of(t) ==> after.Of(t)[id] == if id in plan.Targets(t) then enabled else before.Of(t)[id])
  }

  /** What `verify_disabled` reads back. */
  ghost predicate ReadsDisabled(ids: Identities, plan: Plan)
  {
    forall t: TableName ::
      ids.Of(t).Keys == plan.Of(t).Values && forall id :: id in ids.Of(t) ==> !ids.Of(t)[id]
  }

  /** What `evidence` requires of the rows: the planned ones, and of those exactly the
      targets enabled, or none. */
  ghost predicate ReadsAs(ids: Identities, plan: Plan, enabled: bool) {
    forall t: TableName ::
      ids.Of(t).Keys == plan.Of(t).Values
      && forall id :: id in ids.Of(t) ==> ids.Of(t)[id] == (enabled && id in plan.Targets(t))
  }

  predicate AllOff(rows: map<RowId, bool>, planned: map<Provider, RowId>) {
    rows.Keys == planned.Values && forall id :: id in rows ==> !rows[id]
  }

  predicate TwoOn(rows: map<RowId, bool>, planned: map<Provider, RowId>) {
    && rows.Keys == planned.Values && Nextcloud in planned && Immich in planned
    && forall id :: id in rows ==> (rows[id] <==> id == planned[Nextcloud] || id == planned[Immich])
  }

  /** What the reads accept, table by table. */
  lemma ReadsOnFields(ids: Identities, plan: Plan)
    requires plan.Valid()
    ensures ReadsDisabled(ids, plan) <==>
      (AllOff(ids.instances, plan.instances) && AllOff(ids.accounts, plan.accounts) && AllOff(ids.scopes, plan.scopes))
    ensures ReadsAs(ids, plan, false) <==> ReadsDisabled(ids, plan)
    ensures ReadsAs(ids, plan, true) <==>
      (TwoOn(ids.instances, plan.instances) && TwoOn(ids.accounts, plan.accounts) && TwoOn(ids.scopes, plan.scopes))
  {
    TargetsAre(plan);
    assert ids.Of(ProviderInstances) == ids.instances && ids.Of(ProviderAccounts) == ids.accounts;
    assert ids.Of(ObservationScopes) == ids.scopes;
  }

  /** The tables hold the planned rows and no others, and the preserved ones are disabled. */
  ghost predicate Planned(ids: Identities, plan: Plan) {
    forall t: TableName ::
      ids.Of(t).Keys == plan.Of(t).Values && forall id :: id in ids.Of(t) && id !in plan.Targets(t) ==> !ids.Of(t)[id]
  }

  lemma TargetsArePlanned(ids: Identities, plan: Plan)
    requires Planned(ids, plan)
    ensures forall t: TableName :: plan.Targets(t) <= ids.Of(t).Keys
  {
    forall t: TableName ensures plan.Targets(t) <= ids.Of(t).Keys {
      forall p | p in MECHANISMS && p in plan.Of(t) ensures plan.Of(t)[p] in ids.Of(t) {
        assert plan.Of(t)[p] in plan.Of(t).Values;
      }
    }
  }

  lemma SettingKeepsPlanned(before: Identities, after: Identities, plan: Plan, enabled: bool)
    requires Planned(before, plan) && SetTo(before, after, plan, enabled)
    ensures Planned(after, plan)
  {
  }

  class Database {
    const plan: Plan
    /** When false, any statement may fail. */
    const reliable: bool
    var identities: Identities

    ghost predicate Valid()
      reads this
    {
      plan.Valid()
    }

    constructor (plan: Plan, identities: Identities, reliable: bool)
      requires plan.Valid()
      ensures Valid() && this.plan == plan && this.identities == identities
      ensures this.reliable == reliable
    {
      this.plan, this.identities, this.reliable := plan, identities, reliable;
    }

    /** One update of the transaction: its row must exist. */
    method Update(work: Identities, t: TableName, p: Provider, enabled: bool) returns (r: Result<Identities, ()>)
      requires plan.Valid() && p in MECHANISMS
      ensures reliable && plan.Targets(t) <= work.Of(t).Keys ==> r.Ok?
      ensures r.Ok? ==>
        && p in plan.Of(t) && plan.Of(t)[p] in work.Of(t)
        && r.value == work.With(t, work.Of(t)[plan.Of(t)[p] := enabled])
    {
      var fails: bool := *;
      var id := plan.Of(t)[p];
      assert id in plan.Targets(t);
      if (fails && !reliable) || id !in work.Of(t) {
        return Err(());
      }
      return Ok(work.With(t, work.Of(t)[id := enabled]));
    }

    /** The two updates of one table. */
    method UpdateTable(work: Identities, t: TableName, enabled: bool) returns (r: Result<Identities, ()>)
      requires plan.Valid()
      ensures reliable && plan.Targets(t) <= work.Of(t).Keys ==> r.Ok?
      ensures r.Ok? ==> plan.Targets(t) <= work.Of(t).Keys && r.value.Of(t).Keys == work.Of(t).Keys
      ensures r.Ok? ==> forall u: TableName :: u != t ==> r.value.Of(u) == work.Of(u)
      ensures r.Ok? ==>
        forall id :: id in work.Of(t) ==> r.value.Of(t)[id] == if id in plan.Targets(t) then enabled else work.Of(t)[id]
    {
      var first := Update(work, t, MECHANISMS[0], enabled);
      if first.Err? {
        return first;
      }
      r := Update(first.value, t, MECHANISMS[1], enabled);
      assert plan.Targets(t) == {plan.Of(t)[Nextcloud], plan.Of(t)[Immich]};
    }

    /** One transaction over the three tables, in foreign-key order or its reverse. All
        of the targets change or nothing does. */
    method SetEnabled(enabled: bool) returns (ok: bool)
      requires Valid()
      modifies this`identities
      ensures Valid()
      ensures if ok then SetTo(old(identities), identities, plan, enabled) else identities == old(identities)
      ensures reliable && (forall t: TableName :: plan.Targets(t) <= old(identities).Of(t).Keys) ==> ok
    {
      var order := TABLES;
      if !enabled {
        order := [ObservationScopes, ProviderAccounts, ProviderInstances];
      }
      var a := UpdateTable(identities, order[0], enabled);
      if a.Err? {
        return false;
      }
      var b := UpdateTable(a.value, order[1], enabled);
      if b.Err? {
        return false;
      }
      var c := UpdateTable(b.value, order[2], enabled);
      if c.Err? {
        return false;
      }
      identities := c.value;
      return true;
    }

    /** A read that may fail, but never passes over an enabled or unknown row. */
    method VerifyDisabled() returns (ok: bool)
      requires Valid()
      ensures ok ==> ReadsDisabled(identities, plan)
      ensures reliable && ReadsDisabled(identities, plan) ==> ok
    {
      var fails: bool := *;
      ok := reliable || !fails;
      for k := 0 to 3
        invariant reliable && ReadsDisabled(identities, plan) ==> ok
        invariant ok ==> forall t: TableName :: RankOf(t) < k ==>
          identities.Of(t).Keys == plan.Of(t).Values && forall id :: id in identities.Of(t) ==> !identities.Of(t)[id]
      {
        var rows := identities.Of(TABLES[k]);
        ok := ok && rows.Keys == plan.Of(TABLES[k]).Values && forall id :: id in rows ==> !rows[id];
      }
    }

    /** The read of `evidence`; what it finds beside the identities is anything. */
    method ReadEvidence(enabled: bool) returns (evidence: Option<Evidence>)
      requires Valid()
      ensures evidence.Some? ==> ReadsAs(identities, plan, enabled)
      ensures reliable && ReadsAs(identities, plan, enabled) ==> evidence.Some?
    {
      for k := 0 to 3
        invariant forall t: TableName :: RankOf(t) < k ==>
          identities.Of(t).Keys == plan.Of(t).Values
          && forall id :: id in identities.Of(t) ==> identities.Of(t)[id] == (enabled && id in plan.Targets(t))
      {
        var rows, targets := identities.Of(TABLES[k]), plan.Targets(TABLES[k]);
        var right := rows.Keys == plan.Of(TABLES[k]).Values && forall id :: id in rows ==> rows[id] == (enabled && id in targets);
        if !right {
          return None;
        }
      }
      var found: Evidence := *;
      var fails: bool := *;
      return if fails && !reliable then None else Some(found);
    }
  }

  const TABLES: seq<TableName> := [ProviderInstances, ProviderAccounts, ObservationScopes]

  function RankOf(t: TableName): nat {
    match t
    case ProviderInstances => 0
    case ProviderAccounts => 1
    case ObservationScopes => 2
  }

  /** Disabling reads back as disabled exactly when the tables hold the planned rows and
      no others, and the preserved providers were disabled to begin with. */
  lemma DisablingReadsBackExactlyWhen(before: Identities, after: Identities, plan: Plan)
    requires plan.Valid() && SetTo(before, after, plan, false)
    ensures ReadsDisabled(after, plan) <==> Planned(before, plan)
  {
    if ReadsDisabled(after, plan) {
      forall t: TableName
        ensures before.Of(t).Keys == plan.Of(t).Values
          && forall id :: id in before.Of(t) && id !in plan.Targets(t) ==> !before.Of(t)[id]
      {
        assert after.Of(t).Keys == before.Of(t).Keys;
      }
    }
  }
}
