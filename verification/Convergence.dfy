/** What a run makes active and what it may turn off. */
module Convergence {
  import opened Prelude
  import opened WorldModel
  import opened Matcher
  import opened Reconciliation
  import opened StepEffects
  import opened WorldInvariants

  /** External identifiers with an active unscoped source of the provider. */
  function ActiveIds(r: Repo, provider: string): set<Option<string>> {
    set k | k in r.sources.rows && r.sources.rows[k].scope.None? && r.sources.rows[k].provider == provider
            && r.sources.rows[k].isActive :: r.sources.rows[k].externalId
  }

  /** Identifiers of the facts the world model keeps a source for: they name a
      provider and an identifier, and are of a file or a message. */
  ghost function ResourceIds(items: seq<Observed>): set<Option<string>> {
    set o | o in items && NamesResource(o.fact) :: o.fact.externalId
  }

  predicate NamesResource(f: Fact) {
    && (exists i :: 0 <= i < |f.provider| && !IsSpace(f.provider[i]))
    && f.externalId.Some? && f.externalId.value != ""
    && (f.kind == FileKind || f.kind == MessageKind)
  }

  /** Identifiers that any fact of the scan mentions. */
  function SeenIds(items: seq<Observed>): set<Option<string>> {
    set o | o in items && o.fact.externalId.Some? :: o.fact.externalId
  }

  // ----- One fact only ever activates --------------------------------------------

  ghost predicate Activates(r: Repo, r': Repo, f: Fact) {
    && (forall k :: k in r.sources.rows ==>
          && k in r'.sources.rows
          && SameIdentity(r.sources.rows[k], r'.sources.rows[k])
          && (r.sources.rows[k].isActive ==> r'.sources.rows[k].isActive))
    && (forall k :: k in r'.sources.rows && r'.sources.rows[k].isActive ==>
          || (k in r.sources.rows && r.sources.rows[k].isActive)
          || (IsResource(f) && IsUnscoped(r'.sources.rows[k], f.provider, f.externalId.value)))
  }

  /** What an effect stores is the fact's own active unscoped source. */
  lemma EffectSource(eff: Effect, r: Repo, r': Repo, f: Fact, n: Id)
    requires Keyed(r) && Unused(r, n) && Describes(eff, r, r', f, n) && !eff.NoChange?
    ensures var s := StoredSource(eff, f, n);
      && s.isActive && IsUnscoped(s, f.provider, f.externalId.value)
      && (s.id in r.sources.rows ==> SameIdentity(r.sources.rows[s.id], s))
  {
    FoundSource(r, f.provider, f.externalId.value);
  }

  lemma EffectActivates(eff: Effect, r: Repo, r': Repo, f: Fact, n: Id)
    requires Keyed(r) && Unused(r, n) && Describes(eff, r, r', f, n) && (IsResource(f) || eff.NoChange?)
    ensures Activates(r, r', f)
    ensures !eff.NoChange? ==> exists k :: k in r'.sources.rows && r'.sources.rows[k].isActive
                                        && IsUnscoped(r'.sources.rows[k], f.provider, f.externalId.value)
  {
    if !eff.NoChange? {
      ChangeActivates(eff, r, r', f, n);
    }
  }

  lemma ChangeActivates(eff: Effect, r: Repo, r': Repo, f: Fact, n: Id)
    requires Keyed(r) && Unused(r, n) && Describes(eff, r, r', f, n) && IsResource(f) && !eff.NoChange?
    ensures Activates(r, r', f)
    ensures exists k :: k in r'.sources.rows && r'.sources.rows[k].isActive
                     && IsUnscoped(r'.sources.rows[k], f.provider, f.externalId.value)
  {
    hide Describes;
    EffectForm(eff, r, r', f, n);
    var s := StoredSource(eff, f, n);
    EffectSource(eff, r, r', f, n);
    assert r'.sources.rows[s.id] == s;
  }

  lemma StepActivates(w: World, o: Observed)
    requires Sound(w)
    ensures Activates(w.repo, Step(w, o).0.repo, o.fact)
    ensures Step(w, o).1.Done? && IsResource(o.fact) ==>
      exists k :: k in Step(w, o).0.repo.sources.rows && Step(w, o).0.repo.sources.rows[k].isActive
               && IsUnscoped(Step(w, o).0.repo.sources.rows[k], o.fact.provider, o.fact.externalId.value)
  {
    StepHasEffect(w, o);
    if Step(w, o).1.Done? {
      var f, eff, r' := Deciding(o, w.repo, w.nextId), EffectOf(o, w.repo, w.nextId), Step(w, o).0.repo;
      assert f.provider == o.fact.provider && f.externalId == o.fact.externalId && f.kind == o.fact.kind;
      EffectActivates(eff, w.repo, r', f, w.nextId);
      if IsResource(f) && eff.NoChange? {
        QuietMeansActive(w, o);
      }
    }
  }

  /** A fact that asks for no change already has its active source. */
  lemma QuietMatch(f: Fact, r: Repo, n: Id)
    requires Keyed(r) && IsResource(f) && Match(f, r, n).Ok?
    requires Match(f, r, n).value.actions == [] && Match(f, r, n).value.requirements == {}
    ensures var found := FindUnscoped(r, f.provider, f.externalId.value); found.Some? && found.value.isActive
  {
  }

  lemma QuietMeansActive(w: World, o: Observed)
    requires Sound(w) && IsResource(o.fact) && Step(w, o).1.Done?
    requires EffectOf(o, w.repo, w.nextId).NoChange?
    ensures exists k :: k in w.repo.sources.rows && w.repo.sources.rows[k].isActive
                     && IsUnscoped(w.repo.sources.rows[k], o.fact.provider, o.fact.externalId.value)
  {
    hide Match, ExecuteMany;
    var f := Deciding(o, w.repo, w.nextId);
    QuietMatch(f, w.repo, w.nextId);
    FoundSource(w.repo, f.provider, f.externalId.value);
  }

  lemma StepActiveIds(w: World, o: Observed, p: string)
    requires Sound(w) && o.fact.provider == p
    ensures var r' := Step(w, o).0.repo;
      && ActiveIds(w.repo, p) <= ActiveIds(r', p)
      && ActiveIds(r', p) <= ActiveIds(w.repo, p) + ResourceIds([o])
      && (Step(w, o).1.Done? ==> ResourceIds([o]) <= ActiveIds(r', p))
  {
    hide Step;
    StepActivates(w, o);
    var r' := Step(w, o).0.repo;
    assert IsResource(o.fact) ==> o.fact.externalId in ResourceIds([o]) by { assert o in [o]; }
    forall x | x in ActiveIds(w.repo, p) ensures x in ActiveIds(r', p) {
      var k :| k in w.repo.sources.rows && w.repo.sources.rows[k].scope.None? && w.repo.sources.rows[k].provider == p
            && w.repo.sources.rows[k].isActive && w.repo.sources.rows[k].externalId == x;
      assert SameIdentity(w.repo.sources.rows[k], r'.sources.rows[k]);
    }
    forall x | x in ActiveIds(r', p) ensures x in ActiveIds(w.repo, p) + ResourceIds([o]) {
      var k :| k in r'.sources.rows && r'.sources.rows[k].scope.None? && r'.sources.rows[k].provider == p
            && r'.sources.rows[k].isActive && r'.sources.rows[k].externalId == x;
      if k in w.repo.sources.rows && w.repo.sources.rows[k].isActive {
        assert SameIdentity(w.repo.sources.rows[k], r'.sources.rows[k]);
      }
    }
  }

  lemma {:induction false} ScanActiveIds(w: World, p: string, items: seq<Observed>)
    requires Sound(w)
    requires Scan(w, p, items).raised.None? && Scan(w, p, items).disappeared == 0
    ensures ActiveIds(Scan(w, p, items).w.repo, p) == ActiveIds(w.repo, p) + ResourceIds(items)
    ensures forall x :: x in Scan(w, p, items).seen <==> Some(x) in SeenIds(items)
    decreases |items|
  {
    if items != [] {
      var o, w' := items[0], Step(w, items[0]).0;
      StepKeeps(w, o);
      StepActiveIds(w, o, p);
      ScanActiveIds(w', p, items[1..]);
      assert items == [o] + items[1..];
      assert ResourceIds(items) == ResourceIds([o]) + ResourceIds(items[1..]);
      assert SeenIds(items) == SeenIds([o]) + SeenIds(items[1..]);
      assert forall x :: x in SeenBy(o.fact) <==> Some(x) in SeenIds([o]) by { assert o in [o]; }
    }
  }

  // ----- How a run ends ---------------------------------------------------------------

  /** A completed run scanned everything, then turned off the tombstones' targets
      and, when authoritative, the active sources it had not seen. */
  lemma CompletedRun(w: World, b: Batch) returns (targets: seq<Source>, r1: Repo, missing: seq<Source>)
    requires Sound(w) && RunBatch(w, b).1 == Completed
    ensures var s := Scan(w, b.provider, b.items);
      && s.raised.None? && s.disappeared == 0
      && TombstoneTargets(s.w.repo, b.provider, b.tombstones) == Ok(targets)
      && TurnedOff(s.w.repo, r1, Ids(targets)) && Keyed(r1)
      && missing == (if b.mode.FullAuthoritative? then Unseen(ActiveSources(r1, b.provider), s.seen) else [])
      && TurnedOff(r1, RunBatch(w, b).0.repo, Ids(missing))
  {
    ScanKeeps(w, b.provider, b.items);
    hide Scan, DeactivateAll, TombstoneTargets, TurnedOff, Unused, Kept, ActiveSources, References, UniqueSources, UniqueBlobs;
    var s := Scan(w, b.provider, b.items);
    TargetsAreStored(s.w.repo, b.provider, b.tombstones);
    targets := TombstoneTargets(s.w.repo, b.provider, b.tombstones).value;
    DeactivateAllKeeps(s.w, targets);
    var w1 := DeactivateAll(s.w, targets).0;
    r1 := w1.repo;
    missing := [];
    if b.mode.FullAuthoritative? {
      missing := Unseen(ActiveSources(r1, b.provider), s.seen);
      ActiveAreStored(r1, b.provider);
      DeactivateAllKeeps(w1, missing);
    }
  }

  /** After a complete scan only a bad tombstone can stop the run, before any write. */
  lemma ReconcileCompletes(w: World, b: Batch, seen: set<string>)
    requires Sound(w)
    ensures Reconcile(w, b, seen).1 == Completed || Reconcile(w, b, seen).0 == w
  {
    hide DeactivateAll, TombstoneTargets, TurnedOff, Keyed, Unused, Kept, ActiveSources, References, UniqueSources, UniqueBlobs;
    TargetsAreStored(w.repo, b.provider, b.tombstones);
    if TombstoneTargets(w.repo, b.provider, b.tombstones).Ok? {
      var targets := TombstoneTargets(w.repo, b.provider, b.tombstones).value;
      DeactivateAllKeeps(w, targets);
      var w1 := DeactivateAll(w, targets).0;
      ActiveAreStored(w1.repo, b.provider);
      DeactivateAllKeeps(w1, Unseen(ActiveSources(w1.repo, b.provider), seen));
    }
  }

  /** A run that does not complete leaves what its scan left. */
  lemma UncompletedRun(w: World, b: Batch)
    requires Sound(w) && RunBatch(w, b).1 != Completed
    ensures RunBatch(w, b).0.repo == Scan(w, b.provider, b.items).w.repo
  {
    hide Scan, Reconcile, Sound, Kept, Invariant;
    ScanKeeps(w, b.provider, b.items);
    var s := Scan(w, b.provider, b.items);
    ReconcileCompletes(s.w, b, s.seen);
  }

  /** Which stored sources are the missing ones. */
  lemma MissingAre(r: Repo, p: string, seen: set<string>)
    requires Keyed(r)
    ensures forall k :: k in r.sources.rows ==>
      (k in Ids(Unseen(ActiveSources(r, p), seen)) <==>
        r.sources.rows[k].scope.None? && r.sources.rows[k].provider == p && r.sources.rows[k].isActive
        && !WasSeen(r.sources.rows[k], seen))
  {
    ActiveAreStored(r, p);
    var missing := Unseen(ActiveSources(r, p), seen);
    forall k | k in r.sources.rows && r.sources.rows[k] in missing ensures k in Ids(missing) {
      assert r.sources.rows[k].id == k;
    }
  }

  /** Full-sync convergence: after a normal return the active identifiers are the
      facts' own plus those that were active and were otherwise seen. */
  lemma FullSyncConverges(w: World, b: Batch)
    requires Sound(w)
    requires b.mode.FullAuthoritative? && b.tombstones == [] && RunBatch(w, b).1 == Completed
    ensures ActiveIds(RunBatch(w, b).0.repo, b.provider)
      == ResourceIds(b.items) + (ActiveIds(w.repo, b.provider) * SeenIds(b.items))
  {
    var p, s := b.provider, Scan(w, b.provider, b.items);
    var targets, r1, missing := CompletedRun(w, b);
    ScanActiveIds(w, p, b.items);
    hide RunBatch, Scan, TombstoneTargets;
    assert targets == [] by { NoTombstones(s.w.repo, p, b.tombstones); }
    TurnedOffNone(s.w.repo, r1);
    MissingAre(r1, p, s.seen);
    var r2 := RunBatch(w, b).0.repo;
    OffKeepsIds(r1, r2, missing, p, s.seen);
    SeenOfActive(ActiveIds(r2, p), ActiveIds(w.repo, p), b.items, s.seen);
  }

  lemma NoTombstones(r: Repo, p: string, tombstones: seq<Tombstone>)
    requires tombstones == []
    ensures TombstoneTargets(r, p, tombstones) == Ok([])
  {
  }

  lemma TurnedOffNone(r: Repo, r': Repo)
    requires TurnedOff(r, r', Ids([]))
    ensures r' == r
  {
    assert r'.sources.rows == r.sources.rows;
  }

  lemma SeenOfActive(after: set<Option<string>>, before: set<Option<string>>, items: seq<Observed>, seen: set<string>)
    requires forall x :: x in seen <==> Some(x) in SeenIds(items)
    requires after == set x | x in before + ResourceIds(items) && x.Some? && x.value in seen
    ensures after == ResourceIds(items) + (before * SeenIds(items))
  {
    assert ResourceIds(items) <= SeenIds(items);
    assert None !in SeenIds(items);
  }

  lemma OffKeepsIds(r1: Repo, r2: Repo, missing: seq<Source>, p: string, seen: set<string>)
    requires TurnedOff(r1, r2, Ids(missing))
    requires forall k :: k in r1.sources.rows ==> (k in Ids(missing) <==>
      r1.sources.rows[k].scope.None? && r1.sources.rows[k].provider == p && r1.sources.rows[k].isActive
      && !WasSeen(r1.sources.rows[k], seen))
    ensures ActiveIds(r2, p) == set x | x in ActiveIds(r1, p) && x.Some? && x.value in seen
  {
    forall x | x in ActiveIds(r1, p) && x.Some? && x.value in seen ensures x in ActiveIds(r2, p) {
      var k :| k in r1.sources.rows && r1.sources.rows[k].scope.None? && r1.sources.rows[k].provider == p
            && r1.sources.rows[k].isActive && r1.sources.rows[k].externalId == x;
      assert r2.sources.rows[k] == r1.sources.rows[k];
    }
    forall x | x in ActiveIds(r2, p) ensures x in ActiveIds(r1, p) && x.Some? && x.value in seen {
      var k :| k in r2.sources.rows && r2.sources.rows[k].scope.None? && r2.sources.rows[k].provider == p
            && r2.sources.rows[k].isActive && r2.sources.rows[k].externalId == x;
      assert k !in Ids(missing);
      assert r2.sources.rows[k] == r1.sources.rows[k];
    }
  }

  // ----- Deactivation needs evidence ----------------------------------------------

  ghost predicate TurnedOffBy(r: Repo, r': Repo, k: Id) {
    k in r.sources.rows && r.sources.rows[k].isActive && k in r'.sources.rows && !r'.sources.rows[k].isActive
  }

  lemma {:induction false} ScanTurnsOffNothing(w: World, p: string, items: seq<Observed>)
    requires Sound(w)
    ensures forall k :: !TurnedOffBy(w.repo, Scan(w, p, items).w.repo, k)
    decreases |items|
  {
    hide Step;
    if items != [] && items[0].fact.provider == p {
      StepActivates(w, items[0]);
      StepKeeps(w, items[0]);
      if !Step(w, items[0]).1.Raised? {
        var w' := Step(w, items[0]).0;
        ScanTurnsOffNothing(w', p, items[1..]);
        assert Scan(w, p, items).w == Scan(w', p, items[1..]).w;
        forall k | k in w.repo.sources.rows && w.repo.sources.rows[k].isActive
          ensures !TurnedOffBy(w.repo, Scan(w, p, items).w.repo, k)
        {
          assert !TurnedOffBy(w'.repo, Scan(w', p, items[1..]).w.repo, k);
        }
      }
    }
  }

  lemma {:induction false} TargetsOfProvider(r: Repo, provider: string, tombstones: seq<Tombstone>)
    requires Keyed(r)
    ensures var t := TombstoneTargets(r, provider, tombstones);
      t.Ok? ==> forall s :: s in t.value ==> s.provider == provider
    decreases |tombstones|
  {
    if tombstones != [] && TombstoneTargets(r, provider, tombstones).Ok? {
      FoundSource(r, tombstones[0].provider, tombstones[0].externalId);
      TargetsOfProvider(r, provider, tombstones[1..]);
    }
  }

  /** A run turns a source off only when it completes, and only on a tombstone for
      it or its absence from a completed authoritative scan of its provider. */
  lemma DeactivationHasEvidence(w: World, b: Batch, k: Id)
    requires Sound(w) && TurnedOffBy(w.repo, RunBatch(w, b).0.repo, k)
    ensures RunBatch(w, b).1 == Completed
    ensures var s := w.repo.sources.rows[k];
      && s.scope.None? && s.provider == b.provider
      && ( || (s.externalId.Some? && Tombstone(s.provider, s.externalId.value) in b.tombstones)
           || (b.mode.FullAuthoritative? && s.externalId !in SeenIds(b.items)))
  {
    var s := Scan(w, b.provider, b.items);
    ScanKeeps(w, b.provider, b.items);
    ScanTurnsOffNothing(w, b.provider, b.items);
    assert !TurnedOffBy(w.repo, s.w.repo, k);
    if RunBatch(w, b).1 != Completed {
      UncompletedRun(w, b);
    } else {
      ScanActiveIds(w, b.provider, b.items);
      var targets, r1, missing := CompletedRun(w, b);
      TargetsAreStored(s.w.repo, b.provider, b.tombstones);
      TargetsOfProvider(s.w.repo, b.provider, b.tombstones);
      MissingAre(r1, b.provider, s.seen);
      hide RunBatch, Scan;
      assert SameIdentity(w.repo.sources.rows[k], s.w.repo.sources.rows[k]);
      if k in Ids(targets) {
        var t :| t in targets && t.id == k;
        assert s.w.repo.sources.rows[k] == t;
      } else {
        assert k in Ids(missing);
        assert r1.sources.rows[k] == s.w.repo.sources.rows[k];
      }
    }
  }
}
