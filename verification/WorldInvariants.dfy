/** What every run keeps, from whatever world it starts: rows stay, sources keep
    their identity and their asset, and from an empty world the references and
    uniqueness rules hold for ever. */
module WorldInvariants {
  import opened Prelude
  import opened WorldModel
  import opened Matcher
  import opened Reconciliation
  import opened StepEffects

  function AssetOf(r: Repo, s: Source): Option<Id> {
    if s.blobId.Some? && s.blobId.value in r.blobs.rows then r.blobs.rows[s.blobId.value].assetId else None
  }

  predicate SameIdentity(a: Source, b: Source) {
    a.id == b.id && a.provider == b.provider && a.externalId == b.externalId && a.scope == b.scope
  }

  /** Nothing stored is lost: assets and blobs are unchanged, sources keep place,
      identity and asset. */
  ghost predicate Kept(r: Repo, r': Repo) {
    && (forall k :: k in r.assets.rows ==> k in r'.assets.rows && r'.assets.rows[k] == r.assets.rows[k])
    && (forall k :: k in r.blobs.rows ==> k in r'.blobs.rows && r'.blobs.rows[k] == r.blobs.rows[k])
    && r.sources.order <= r'.sources.order
    && (forall k :: k in r.sources.rows ==>
          && k in r'.sources.rows
          && SameIdentity(r.sources.rows[k], r'.sources.rows[k])
          && (AssetOf(r, r.sources.rows[k]).Some? ==>
                AssetOf(r', r'.sources.rows[k]) == AssetOf(r, r.sources.rows[k])))
  }

  ghost predicate References(r: Repo) {
    && (forall k :: k in r.sources.rows ==>
          r.sources.rows[k].blobId.Some? && r.sources.rows[k].blobId.value in r.blobs.rows)
    && (forall k :: k in r.blobs.rows ==>
          r.blobs.rows[k].assetId.Some? && r.blobs.rows[k].assetId.value in r.assets.rows)
  }

  ghost predicate UniqueSources(r: Repo) {
    forall k, l :: k in r.sources.rows && l in r.sources.rows
      && r.sources.rows[k].scope.None? && r.sources.rows[l].scope.None?
      && r.sources.rows[k].provider == r.sources.rows[l].provider
      && r.sources.rows[k].externalId == r.sources.rows[l].externalId
      && r.sources.rows[k].externalId.Some?
      ==> k == l
  }

  ghost predicate UniqueBlobs(r: Repo) {
    forall k, l :: k in r.blobs.rows && l in r.blobs.rows
      && r.blobs.rows[k].assetId == r.blobs.rows[l].assetId
      && r.blobs.rows[k].hash == r.blobs.rows[l].hash
      ==> k == l
  }

  ghost predicate Invariant(w: World) {
    Sound(w) && References(w.repo) && UniqueSources(w.repo) && UniqueBlobs(w.repo)
  }

  lemma KeptTransitive(a: Repo, b: Repo, c: Repo)
    requires Kept(a, b) && Kept(b, c)
    ensures Kept(a, c)
  {
    assert a.sources.order <= c.sources.order;
  }

  // ----- One effect ------------------------------------------------------------

  /** A table with one more row than t, or t itself. */
  ghost predicate Grown<V(!new)>(t: Table<V>, t': Table<V>, id: Id) {
    t' == t || (id !in t.rows && exists row :: t' == t.Put(id, row))
  }

  lemma GrownKeeps<V(!new)>(t: Table<V>, t': Table<V>, id: Id)
    requires t.WellFormed() && Grown(t, t', id)
    ensures t'.WellFormed()
    ensures forall k :: k in t.rows ==> k in t'.rows && t'.rows[k] == t.rows[k]
    ensures forall k :: k in t'.rows ==> k in t.rows || k == id
  {
    if t' != t {
      var row :| t' == t.Put(id, row);
      PutWellFormed(t, id, row);
    }
  }

  /** A source row may be replaced by one that stands for the same thing in the same asset. */
  ghost predicate MayStore(r: Repo, s: Source) {
    s.id in r.sources.rows ==>
      && SameIdentity(r.sources.rows[s.id], s)
      && (AssetOf(r, r.sources.rows[s.id]).Some? ==> AssetOf(r, s) == AssetOf(r, r.sources.rows[s.id]))
  }

  lemma SourcePutKeeps(r: Repo, s: Source)
    requires Keyed(r) && MayStore(r, s)
    ensures var r' := r.(sources := r.sources.Put(s.id, s)); Keyed(r') && Kept(r, r')
  {
    PutWellFormed(r.sources, s.id, s);
  }

  lemma RowsGrowKeeps(r: Repo, r': Repo, a: Id, b: Id)
    requires Keyed(r) && r'.sources == r.sources
    requires Grown(r.assets, r'.assets, a) && (a in r'.assets.rows && a !in r.assets.rows ==> r'.assets.rows[a].id == a)
    requires Grown(r.blobs, r'.blobs, b) && (b in r'.blobs.rows && b !in r.blobs.rows ==> r'.blobs.rows[b].id == b)
    ensures Keyed(r') && Kept(r, r')
  {
    GrownKeeps(r.assets, r'.assets, a);
    GrownKeeps(r.blobs, r'.blobs, b);
  }

  /** Rows first, then the source: every effect has this form. */
  ghost function StoredSource(eff: Effect, f: Fact, n: Id): Source
    requires !eff.NoChange?
  {
    match eff
    case NewResource(_, _) => BuildSource(f, n + 2, n + 1)
    case NewSource(b, _) => BuildSource(f, n + 2, b.id)
    case Repoint(s, b, _) => UpdatedSource(s, f, Some(b.id))
    case NewBlob(s, _, _) => UpdatedSource(s, f, Some(n))
    case Refresh(s, _) => UpdatedSource(s, f, s.blobId)
  }

  ghost function BlobRow(eff: Effect, n: Id): Id {
    if eff.NewResource? then n + 1 else n
  }

  lemma EffectForm(eff: Effect, r: Repo, r': Repo, f: Fact, n: Id)
    requires Keyed(r) && Unused(r, n) && Describes(eff, r, r', f, n) && !eff.NoChange?
    ensures var s := StoredSource(eff, f, n); r'.sources == r.sources.Put(s.id, s)
    ensures Grown(r.assets, r'.assets, n) && (n in r'.assets.rows ==> r'.assets.rows[n].id == n)
    ensures var b := BlobRow(eff, n); Grown(r.blobs, r'.blobs, b) && (b in r'.blobs.rows ==> r'.blobs.rows[b].id == b)
    ensures MayStore(r.(assets := r'.assets, blobs := r'.blobs), StoredSource(eff, f, n))
  {
    if !eff.NewResource? && !eff.NewSource? {
      FoundSource(r, f.provider, f.externalId.value);
    }
  }

  lemma FormKeeps(r: Repo, r': Repo, s: Source, a: Id, b: Id)
    requires Keyed(r) && r'.sources == r.sources.Put(s.id, s)
    requires Grown(r.assets, r'.assets, a) && (a in r'.assets.rows && a !in r.assets.rows ==> r'.assets.rows[a].id == a)
    requires Grown(r.blobs, r'.blobs, b) && (b in r'.blobs.rows && b !in r.blobs.rows ==> r'.blobs.rows[b].id == b)
    requires MayStore(r.(assets := r'.assets, blobs := r'.blobs), s)
    ensures Keyed(r') && Kept(r, r')
    ensures forall n: nat :: Unused(r, n) && a < n + 3 && b < n + 3 && s.id < n + 3 ==> Unused(r', n + 3)
  {
    var r1 := r.(assets := r'.assets, blobs := r'.blobs);
    RowsGrowKeeps(r, r1, a, b);
    SourcePutKeeps(r1, s);
    KeptTransitive(r, r1, r');
    GrownKeeps(r.assets, r'.assets, a);
    GrownKeeps(r.blobs, r'.blobs, b);
  }

  lemma EffectKeeps(eff: Effect, r: Repo, r': Repo, f: Fact, n: Id)
    requires Keyed(r) && Unused(r, n) && Describes(eff, r, r', f, n)
    ensures Keyed(r') && Unused(r', n + 3) && Kept(r, r')
  {
    if !eff.NoChange? {
      EffectForm(eff, r, r', f, n);
      FormKeeps(r, r', StoredSource(eff, f, n), n, BlobRow(eff, n));
      EffectSourceId(eff, r, r', f, n);
    }
  }

  lemma EffectSourceId(eff: Effect, r: Repo, r': Repo, f: Fact, n: Id)
    requires Keyed(r) && Unused(r, n) && Describes(eff, r, r', f, n) && !eff.NoChange?
    ensures StoredSource(eff, f, n).id < n + 3
  {
    if eff.Repoint? || eff.NewBlob? || eff.Refresh? {
      FoundSource(r, f.provider, f.externalId.value);
    }
  }

  /** The blob a stored source points to is in the table afterwards. */
  lemma EffectBlob(eff: Effect, r: Repo, r': Repo, f: Fact, n: Id)
    requires Keyed(r) && Describes(eff, r, r', f, n) && !eff.NoChange?
    ensures StoredSource(eff, f, n).blobId.Some? && StoredSource(eff, f, n).blobId.value in r'.blobs.rows
    ensures BlobRow(eff, n) in r'.blobs.rows && BlobRow(eff, n) !in r.blobs.rows ==>
      r'.blobs.rows[BlobRow(eff, n)].assetId.Some? && r'.blobs.rows[BlobRow(eff, n)].assetId.value in r'.assets.rows
  {
  }

  lemma FormReferences(r: Repo, r': Repo, s: Source, a: Id, b: Id)
    requires Keyed(r) && References(r) && r'.sources == r.sources.Put(s.id, s)
    requires Grown(r.assets, r'.assets, a) && Grown(r.blobs, r'.blobs, b)
    requires s.blobId.Some? && s.blobId.value in r'.blobs.rows
    requires b in r'.blobs.rows && b !in r.blobs.rows ==>
      r'.blobs.rows[b].assetId.Some? && r'.blobs.rows[b].assetId.value in r'.assets.rows
    ensures References(r')
  {
    GrownKeeps(r.assets, r'.assets, a);
    GrownKeeps(r.blobs, r'.blobs, b);
  }

  lemma ReferencesKept(eff: Effect, r: Repo, r': Repo, f: Fact, n: Id)
    requires Keyed(r) && Unused(r, n) && References(r) && Describes(eff, r, r', f, n)
    ensures References(r')
  {
    if !eff.NoChange? {
      EffectForm(eff, r, r', f, n);
      EffectBlob(eff, r, r', f, n);
      FormReferences(r, r', StoredSource(eff, f, n), n, BlobRow(eff, n));
    }
  }

  lemma UniqueSourcesKept(eff: Effect, r: Repo, r': Repo, f: Fact, n: Id)
    requires Keyed(r) && Unused(r, n) && UniqueSources(r) && Describes(eff, r, r', f, n)
    ensures UniqueSources(r')
  {
    if !eff.NoChange? {
      EffectForm(eff, r, r', f, n);
      FoundSource(r, f.provider, f.externalId.value);
      var s := StoredSource(eff, f, n);
      if s.id in r.sources.rows {
        assert SameIdentity(r.sources.rows[s.id], s);
      } else {
        forall k | k in r.sources.rows ensures !IsUnscoped(r.sources.rows[k], f.provider, f.externalId.value) {
          assert k in r.sources.order;
        }
      }
    }
  }

  lemma UniqueBlobsKept(eff: Effect, r: Repo, r': Repo, f: Fact, n: Id)
    requires Keyed(r) && Unused(r, n) && References(r) && UniqueBlobs(r) && Describes(eff, r, r', f, n)
    ensures UniqueBlobs(r')
  {
    if eff.NewBlob? {
      forall k | k in r.blobs.rows
        ensures !(r.blobs.rows[k].assetId == eff.current.assetId && r.blobs.rows[k].hash == Some(eff.e.sha256))
      {
        assert k in r.blobs.order;
      }
    }
  }

  lemma EffectKeepsInvariant(eff: Effect, r: Repo, r': Repo, f: Fact, n: Id)
    requires Keyed(r) && Unused(r, n) && References(r) && UniqueSources(r) && UniqueBlobs(r)
    requires Describes(eff, r, r', f, n)
    ensures References(r') && UniqueSources(r') && UniqueBlobs(r')
  {
    ReferencesKept(eff, r, r', f, n);
    UniqueSourcesKept(eff, r, r', f, n);
    UniqueBlobsKept(eff, r, r', f, n);
  }

  lemma StepKeeps(w: World, o: Observed)
    requires Sound(w)
    ensures Sound(Step(w, o).0) && Kept(w.repo, Step(w, o).0.repo)
    ensures Invariant(w) ==> Invariant(Step(w, o).0)
  {
    StepHasEffect(w, o);
    if Step(w, o).1.Done? {
      assert Step(w, o).0.nextId == w.nextId + 3;
      StepKeepsRepo(EffectOf(o, w.repo, w.nextId), w, Step(w, o).0, Deciding(o, w.repo, w.nextId));
    }
  }

  lemma StepKeepsRepo(eff: Effect, w: World, w': World, f: Fact)
    requires Sound(w) && Describes(eff, w.repo, w'.repo, f, w.nextId) && w'.nextId == w.nextId + 3
    ensures Sound(w') && Kept(w.repo, w'.repo)
    ensures Invariant(w) ==> Invariant(w')
  {
    EffectKeeps(eff, w.repo, w'.repo, f, w.nextId);
    if Invariant(w) {
      EffectKeepsInvariant(eff, w.repo, w'.repo, f, w.nextId);
    }
  }

  lemma {:induction false} ScanKeeps(w: World, provider: string, items: seq<Observed>)
    requires Sound(w)
    ensures Sound(Scan(w, provider, items).w) && Kept(w.repo, Scan(w, provider, items).w.repo)
    ensures Invariant(w) ==> Invariant(Scan(w, provider, items).w)
    decreases |items|
  {
    if items != [] && items[0].fact.provider == provider {
      StepKeeps(w, items[0]);
      var w' := Step(w, items[0]).0;
      if !Step(w, items[0]).1.Raised? {
        ScanKeeps(w', provider, items[1..]);
        KeptTransitive(w.repo, w'.repo, Scan(w', provider, items[1..]).w.repo);
      }
    }
  }

  // ----- Turning sources off -----------------------------------------------------

  /** r' is r with exactly the sources in `ids` turned off. */
  ghost predicate TurnedOff(r: Repo, r': Repo, ids: set<Id>) {
    && r'.assets == r.assets && r'.blobs == r.blobs
    && r'.sources.order == r.sources.order && r'.sources.rows.Keys == r.sources.rows.Keys
    && (forall k :: k in r.sources.rows && k !in ids ==> r'.sources.rows[k] == r.sources.rows[k])
    && (forall k :: k in r.sources.rows && k in ids ==>
          r'.sources.rows[k] == r.sources.rows[k].(isActive := false, deletedAt := r'.sources.rows[k].deletedAt)
          && r'.sources.rows[k].deletedAt.Some?)
  }

  function Ids(sources: seq<Source>): set<Id> {
    set s | s in sources :: s.id
  }

  lemma {:induction false} DeactivationsTurnOff(r: Repo, sources: seq<Source>, clock: int)
    requires forall s :: s in sources ==> s.id in r.sources.rows
    ensures var r' := ExecuteMany(r, Deactivations(sources, clock));
      r'.Ok? && TurnedOff(r, r'.value, Ids(sources))
    decreases |sources|
  {
    if sources != [] {
      var a := DeactivatingSource(Deactivated(sources[0], clock));
      var ds := Deactivations(sources, clock);
      ExecuteLast(r, a);
      var r1 := ExecuteAction(r, a).value;
      assert ds[0].actions == [a] && ds[1..] == Deactivations(sources[1..], clock + 1);
      DeactivationsTurnOff(r1, sources[1..], clock + 1);
      assert Ids(sources) == {sources[0].id} + Ids(sources[1..]);
    }
  }

  lemma TurnedOffKeeps(w: World, r': Repo, ids: set<Id>)
    requires Sound(w) && TurnedOff(w.repo, r', ids)
    ensures Keyed(r') && Unused(r', w.nextId) && Kept(w.repo, r')
    ensures Invariant(w) ==> References(r') && UniqueSources(r') && UniqueBlobs(r')
  {
    forall k | k in w.repo.sources.rows
      ensures SameIdentity(w.repo.sources.rows[k], r'.sources.rows[k])
              && r'.sources.rows[k].blobId == w.repo.sources.rows[k].blobId
    {
    }
  }

  lemma DeactivateAllKeeps(w: World, sources: seq<Source>)
    requires Sound(w) && forall s :: s in sources ==> s.id in w.repo.sources.rows
    ensures DeactivateAll(w, sources).1.None?
    ensures TurnedOff(w.repo, DeactivateAll(w, sources).0.repo, Ids(sources))
    ensures Sound(DeactivateAll(w, sources).0) && Kept(w.repo, DeactivateAll(w, sources).0.repo)
    ensures Invariant(w) ==> Invariant(DeactivateAll(w, sources).0)
  {
    DeactivationsTurnOff(w.repo, sources, w.clock);
    TurnedOffKeeps(w, DeactivateAll(w, sources).0.repo, Ids(sources));
  }

  /** The sources tombstones select are stored, active, unscoped, and named by a tombstone. */
  lemma {:induction false} TargetsAreStored(r: Repo, provider: string, tombstones: seq<Tombstone>)
    requires Keyed(r)
    ensures var t := TombstoneTargets(r, provider, tombstones);
      t.Ok? ==> forall s :: s in t.value ==>
        && s.id in r.sources.rows && r.sources.rows[s.id] == s && s.isActive && s.scope.None?
        && s.externalId.Some? && Tombstone(s.provider, s.externalId.value) in tombstones
    decreases |tombstones|
  {
    if tombstones != [] && TombstoneTargets(r, provider, tombstones).Ok? {
      FoundSource(r, tombstones[0].provider, tombstones[0].externalId);
      TargetsAreStored(r, provider, tombstones[1..]);
    }
  }

  lemma ActiveAreStored(r: Repo, provider: string)
    requires Keyed(r)
    ensures forall s :: s in ActiveSources(r, provider) <==>
      s.id in r.sources.rows && r.sources.rows[s.id] == s && s.scope.None? && s.provider == provider && s.isActive
  {
    forall s: Source | s.id in r.sources.rows && r.sources.rows[s.id] == s && s.scope.None? && s.provider == provider && s.isActive
      ensures s in ActiveSources(r, provider)
    {
      assert s.id in r.sources.order;
    }
  }

  // ----- Whole runs -----------------------------------------------------------------

  lemma RunKeeps(w: World, b: Batch)
    requires Sound(w)
    ensures Sound(RunBatch(w, b).0) && Kept(w.repo, RunBatch(w, b).0.repo)
    ensures Invariant(w) ==> Invariant(RunBatch(w, b).0)
  {
    hide Scan, DeactivateAll, TombstoneTargets, TurnedOff, Keyed, Unused, Kept, ActiveSources, Unseen;
    hide References, UniqueSources, UniqueBlobs, Invariant;
    ScanKeeps(w, b.provider, b.items);
    var s := Scan(w, b.provider, b.items);
    if s.raised.None? && b.interruption.None? && s.disappeared == 0 && TombstoneTargets(s.w.repo, b.provider, b.tombstones).Ok? {
      TargetsAreStored(s.w.repo, b.provider, b.tombstones);
      var targets := TombstoneTargets(s.w.repo, b.provider, b.tombstones).value;
      DeactivateAllKeeps(s.w, targets);
      var w1 := DeactivateAll(s.w, targets).0;
      KeptTransitive(w.repo, s.w.repo, w1.repo);
      if b.mode.FullAuthoritative? {
        ActiveAreStored(w1.repo, b.provider);
        var missing := Unseen(ActiveSources(w1.repo, b.provider), s.seen);
        DeactivateAllKeeps(w1, missing);
        KeptTransitive(w.repo, w1.repo, DeactivateAll(w1, missing).0.repo);
      }
    }
  }

  /** Any mix of runs, whatever end each of them comes to. */
  function RunAll(w: World, batches: seq<Batch>): World
    decreases |batches|
  {
    if batches == [] then w else RunAll(RunBatch(w, batches[0]).0, batches[1..])
  }

  lemma {:induction false} RunAllKeeps(w: World, batches: seq<Batch>)
    requires Sound(w)
    ensures Sound(RunAll(w, batches)) && Kept(w.repo, RunAll(w, batches).repo)
    ensures Invariant(w) ==> Invariant(RunAll(w, batches))
    decreases |batches|
  {
    if batches != [] {
      RunKeeps(w, batches[0]);
      var w' := RunBatch(w, batches[0]).0;
      RunAllKeeps(w', batches[1..]);
      KeptTransitive(w.repo, w'.repo, RunAll(w', batches[1..]).repo);
    }
  }

  lemma RunAllAppend(w: World, early: seq<Batch>, late: seq<Batch>)
    ensures RunAll(w, early + late) == RunAll(RunAll(w, early), late)
    decreases |early|
  {
    if early == [] {
      assert early + late == late;
    } else {
      assert (early + late)[1..] == early[1..] + late;
      RunAllAppend(RunBatch(w, early[0]).0, early[1..], late);
    }
  }

  /** Every state reachable from an empty store satisfies the invariant, and
      everything stored in it is kept by whatever runs next. */
  lemma ReachableWorlds(start: World, early: seq<Batch>, late: seq<Batch>)
    requires start.repo == EMPTY_REPO
    ensures Invariant(RunAll(start, early))
    ensures Kept(RunAll(start, early).repo, RunAll(start, early + late).repo)
  {
    EmptyIsSound(start);
    hide *;
    RunAllKeeps(start, early);
    RunAllKeeps(RunAll(start, early), late);
    RunAllAppend(start, early, late);
  }

  lemma EmptyIsSound(start: World)
    requires start.repo == EMPTY_REPO
    ensures Sound(start) && Invariant(start)
  {
  }
}
