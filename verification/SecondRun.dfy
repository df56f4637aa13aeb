/** The idempotence theorem: facts settle one by one, other facts leave them
    settled, and the one family that does not settle moves its source again. */
module SecondRun {
  import opened Prelude
  import opened WorldModel
  import opened Matcher
  import opened Reconciliation
  import opened StepEffects
  import opened WorldInvariants
  import opened Convergence
  import opened Idempotence

  // ----- Facts with other identifiers see the same source and blob ------------------

  ghost predicate SameView(r: Repo, r': Repo, f: Fact) {
    && f.externalId.Some?
    && FindUnscoped(r', f.provider, f.externalId.value) == FindUnscoped(r, f.provider, f.externalId.value)
    && (FindUnscoped(r, f.provider, f.externalId.value).Some? ==>
          var s := FindUnscoped(r, f.provider, f.externalId.value).value;
          s.id in r'.sources.rows && r'.sources.rows[s.id] == s && CurrentBlob(f, s, r') == CurrentBlob(f, s, r))
  }

  lemma FormElsewhere(r: Repo, r': Repo, t: Source, f: Fact)
    requires Keyed(r) && References(r) && r'.sources == r.sources.Put(t.id, t)
    requires forall k :: k in r.assets.rows ==> k in r'.assets.rows && r'.assets.rows[k] == r.assets.rows[k]
    requires forall k :: k in r.blobs.rows ==> k in r'.blobs.rows && r'.blobs.rows[k] == r.blobs.rows[k]
    requires f.externalId.Some? && !IsUnscoped(t, f.provider, f.externalId.value)
    requires t.id in r.sources.rows ==> !IsUnscoped(r.sources.rows[t.id], f.provider, f.externalId.value)
    ensures SameView(r, r', f)
  {
    FoundSource(r, f.provider, f.externalId.value);
    FirstIgnores(r.sources, t.id, t, UnscopedKey(f.provider, f.externalId.value));
  }

  lemma EffectElsewhere(eff: Effect, r: Repo, r': Repo, g: Fact, n: Id, f: Fact)
    requires Keyed(r) && Unused(r, n) && References(r) && Describes(eff, r, r', g, n)
    requires f.externalId.Some? && !(g.provider == f.provider && g.externalId == f.externalId)
    ensures SameView(r, r', f)
  {
    FoundSource(r, f.provider, f.externalId.value);
    if !eff.NoChange? {
      EffectForm(eff, r, r', g, n);
      EffectSource(eff, r, r', g, n);
      EffectKeeps(eff, r, r', g, n);
      hide Describes;
      FormElsewhere(r, r', StoredSource(eff, g, n), f);
    }
  }

  lemma StepElsewhere(w: World, o: Observed, f: Fact)
    requires Sound(w) && References(w.repo)
    requires f.externalId.Some? && f.provider == o.fact.provider
    requires IsResource(o.fact) ==> o.fact.externalId != f.externalId
    ensures SameView(w.repo, Step(w, o).0.repo, f)
  {
    FoundSource(w.repo, f.provider, f.externalId.value);
    StepHasEffect(w, o);
    if Step(w, o).1.Done? && IsResource(o.fact) {
      var g := Deciding(o, w.repo, w.nextId);
      assert g.provider == o.fact.provider && g.externalId == o.fact.externalId;
      EffectElsewhere(EffectOf(o, w.repo, w.nextId), w.repo, Step(w, o).0.repo, g, w.nextId, f);
    }
  }

  lemma SameViewTransitive(a: Repo, b: Repo, c: Repo, f: Fact)
    requires SameView(a, b, f) && SameView(b, c, f)
    ensures SameView(a, c, f)
  {
  }

  lemma StepReferences(w: World, o: Observed)
    requires Sound(w) && References(w.repo)
    ensures References(Step(w, o).0.repo)
  {
    StepHasEffect(w, o);
    if Step(w, o).1.Done? {
      ReferencesKept(EffectOf(o, w.repo, w.nextId), w.repo, Step(w, o).0.repo, Deciding(o, w.repo, w.nextId), w.nextId);
    }
  }

  lemma {:induction false} ScanElsewhere(w: World, p: string, items: seq<Observed>, f: Fact)
    requires Sound(w) && References(w.repo) && f.externalId.Some? && f.provider == p
    requires forall o :: o in items && IsResource(o.fact) ==> o.fact.externalId != f.externalId
    ensures SameView(w.repo, Scan(w, p, items).w.repo, f)
    ensures References(Scan(w, p, items).w.repo)
    decreases |items|
  {
    hide Step;
    FoundSource(w.repo, f.provider, f.externalId.value);
    if items != [] && items[0].fact.provider == p {
      StepKeeps(w, items[0]);
      StepReferences(w, items[0]);
      StepElsewhere(w, items[0], f);
      if !Step(w, items[0]).1.Raised? {
        var w' := Step(w, items[0]).0;
        ScanElsewhere(w', p, items[1..], f);
        SameViewTransitive(w.repo, w'.repo, Scan(w', p, items[1..]).w.repo, f);
      }
    }
  }

  /** Turning other sources off leaves the view too. */
  lemma OffElsewhere(r: Repo, r': Repo, ids: set<Id>, f: Fact)
    requires Keyed(r) && TurnedOff(r, r', ids) && f.externalId.Some?
    requires forall k :: k in ids && k in r.sources.rows ==> !IsUnscoped(r.sources.rows[k], f.provider, f.externalId.value)
    ensures SameView(r, r', f)
  {
    FoundSource(r, f.provider, f.externalId.value);
    FirstSkips(r.sources.order, r.sources.rows, r'.sources.rows, UnscopedKey(f.provider, f.externalId.value));
  }

  lemma ViewKeepsSettled(r: Repo, r': Repo, o: Observed)
    requires IsResource(o.fact) ==> SameView(r, r', o.fact)
    requires Settled(r, o)
    ensures Settled(r', o)
  {
    if IsResource(o.fact) {
      var s, b :| Owns(r, o.fact, s, b) && (SettledUnread(o, s, b) || SettledRead(o, s, b));
      assert Owns(r', o.fact, s, b);
    }
  }

  lemma ViewKeepsStale(r: Repo, r': Repo, o: Observed)
    requires o.fact.externalId.Some? && SameView(r, r', o.fact)
    ensures StaleBlankTag(r', o) <==> StaleBlankTag(r, o)
  {
    forall s, b ensures Owns(r', o.fact, s, b) <==> Owns(r, o.fact, s, b) {
    }
  }

  // ----- After one step its own fact is settled ---------------------------------------

  /** Replacing the first match by another match keeps it first. */
  lemma {:induction false} FirstReplaced(order: seq<Id>, rows: map<Id, Source>, s: Source, p: Source -> bool)
    requires s.id in rows && FirstOf(order, rows, p) == Some(rows[s.id]) && p(s)
    requires forall k :: k in rows ==> rows[k].id == k
    ensures FirstOf(order, rows[s.id := s], p) == Some(s)
  {
    if order != [] && !(order[0] in rows && p(rows[order[0]])) {
      assert order[0] != s.id;
      FirstReplaced(order[1..], rows, s, p);
    }
  }

  lemma {:induction false} FirstAppended(order: seq<Id>, rows: map<Id, Source>, s: Source, p: Source -> bool)
    requires FirstOf(order, rows, p).None? && p(s) && s.id !in order
    ensures FirstOf(order + [s.id], rows[s.id := s], p) == Some(s)
  {
    if order == [] {
      assert order + [s.id] == [s.id];
    } else {
      assert (order + [s.id])[1..] == order[1..] + [s.id];
      FirstAppended(order[1..], rows, s, p);
    }
  }

  /** The source a step stores is the one its fact finds from then on. */
  lemma StoredIsFound(eff: Effect, r: Repo, r': Repo, f: Fact, n: Id)
    requires Keyed(r) && Unused(r, n) && Describes(eff, r, r', f, n) && !eff.NoChange?
    ensures FindUnscoped(r', f.provider, f.externalId.value) == Some(StoredSource(eff, f, n))
  {
    EffectForm(eff, r, r', f, n);
    EffectSource(eff, r, r', f, n);
    FoundSource(r, f.provider, f.externalId.value);
    var s, p := StoredSource(eff, f, n), UnscopedKey(f.provider, f.externalId.value);
    if eff.NewResource? || eff.NewSource? {
      FirstAppended(r.sources.order, r.sources.rows, s, p);
    } else {
      FirstReplaced(r.sources.order, r.sources.rows, s, p);
    }
  }

  ghost function StoredBlob(eff: Effect, f: Fact, n: Id): Blob
    requires !eff.NoChange? && (eff.NewBlob? ==> eff.current.assetId.Some?)
  {
    match eff
    case NewResource(_, e) => BuildBlob(f, n + 1, n, e)
    case NewSource(b, _) => b
    case Repoint(_, b, _) => b
    case NewBlob(_, current, e) => BuildBlob(f, n, current.assetId.value, e)
    case Refresh(_, b) => b
  }

  lemma StoredIsOwned(eff: Effect, r: Repo, r': Repo, f: Fact, n: Id)
    requires Keyed(r) && Unused(r, n) && Describes(eff, r, r', f, n) && !eff.NoChange?
    requires eff.NewSource? ==> OnlyFilesHold(r, eff.e.sha256)
    ensures eff.NewBlob? ==> eff.current.assetId.Some?
    ensures Owns(r', f, StoredSource(eff, f, n), StoredBlob(eff, f, n))
  {
    StoredIsFound(eff, r, r', f, n);
    if eff.NewSource? {
      assert eff.blob.id in r.blobs.rows && r.blobs.rows[eff.blob.id] == eff.blob;
      assert HasType(r, eff.blob, File);
    }
  }

  lemma EvidenceIsContent(w: World, o: Observed)
    requires Step(w, o).1.Done? && IsResource(o.fact)
    ensures var f := Deciding(o, w.repo, w.nextId);
      GetContentEvidence(f).Ok? && ValidSize(o.fact.size) && SameKey(f, o.fact)
      && (GetContentEvidence(f).value.Some? ==>
            ContentOf(o) == GetContentEvidence(f).value && f == WithContent(o, ContentOf(o).value))
      && (GetContentEvidence(f).value.None? ==> f == o.fact)
  {
    EvidenceOfMatch(o.fact, w.repo, w.nextId);
    EvidenceOfMatch(Deciding(o, w.repo, w.nextId), w.repo, w.nextId);
    hide Match, ExecuteMany;
  }

  predicate SameKey(f: Fact, g: Fact) {
    f.provider == g.provider && f.externalId == g.externalId && f.kind == g.kind && f.size == g.size
  }

  lemma EvidenceOfMatch(f: Fact, r: Repo, n: Id)
    requires IsResource(f) && Match(f, r, n).Ok?
    ensures ValidSize(f.size) && GetContentEvidence(f).Ok?
    ensures CONTENT_REQUIREMENTS * Match(f, r, n).value.requirements != {} ==> f.contentHash.None? && f.contentLength.None?
  {
  }

  /** A fact that asked for nothing was already settled. */
  lemma QuietIsSettled(w: World, o: Observed)
    requires Sound(w) && Step(w, o).1.Done? && IsResource(o.fact) && EffectOf(o, w.repo, w.nextId).NoChange?
    ensures Settled(w.repo, o)
  {
    EvidenceIsContent(w, o);
    var f := Deciding(o, w.repo, w.nextId);
    hide ExecuteMany, Match;
    QuietMatchSettles(f, w.repo, w.nextId);
    var s := FindUnscoped(w.repo, f.provider, f.externalId.value).value;
    var b := CurrentBlob(f, s, w.repo).value;
    assert Owns(w.repo, o.fact, s, b);
    assert SettledUnread(o, s, b) || SettledRead(o, s, b);
  }

  lemma QuietMatchSettles(f: Fact, r: Repo, n: Id)
    requires Keyed(r) && IsResource(f) && Match(f, r, n).Ok?
    requires Match(f, r, n).value.actions == [] && Match(f, r, n).value.requirements == {}
    ensures var found := FindUnscoped(r, f.provider, f.externalId.value);
      && found.Some? && Unchanged(f, found.value) && CurrentBlob(f, found.value, r).Ok?
      && found.value.versionTag == ComparableTag(f)
      && var b := CurrentBlob(f, found.value, r).value;
      && (GetContentEvidence(f).value.None? ==> !SameVersionNeedsEvidence(f, found.value, b))
      && (GetContentEvidence(f).value.Some? ==> BlobMatches(b, GetContentEvidence(f).value.value, true))
  {
  }

  lemma EffectSettles(eff: Effect, w: World, r': Repo, o: Observed, length: string -> int)
    requires Sound(w) && IsResource(o.fact) && ValidSize(o.fact.size) && !eff.NoChange?
    requires var f := Deciding(o, w.repo, w.nextId);
      && Describes(eff, w.repo, r', f, w.nextId) && SameKey(f, o.fact)
      && GetContentEvidence(f).Ok?
      && (GetContentEvidence(f).value.Some? ==>
            ContentOf(o) == GetContentEvidence(f).value && f == WithContent(o, ContentOf(o).value))
      && (GetContentEvidence(f).value.None? ==> f == o.fact)
    requires HashFixesLength(w.repo, [o], length) && FilesAreNotMessages(w.repo, [o])
    requires !StaleBlankTag(w.repo, o)
    ensures Settled(r', o)
  {
    var f, n := Deciding(o, w.repo, w.nextId), w.nextId;
    assert o in [o];
    StoredIsOwned(eff, w.repo, r', f, n);
    var s, b := StoredSource(eff, f, n), StoredBlob(eff, f, n);
    assert Owns(r', o.fact, s, b);
    if eff.Refresh? {
      RefreshSettles(eff.s, b, o, length, w.repo);
    } else {
      assert SettledRead(o, s, b);
    }
  }

  lemma RefreshSettles(s: Source, b: Blob, o: Observed, length: string -> int, r: Repo)
    requires Keyed(r) && IsResource(o.fact) && Owns(r, o.fact, s, b) && GetContentEvidence(o.fact) == Ok(None)
    requires s.versionTag == ComparableTag(o.fact) && !SameVersionNeedsEvidence(o.fact, s, b)
    requires HashFixesLength(r, [o], length) && !StaleBlankTag(r, o)
    ensures var s' := UpdatedSource(s, o.fact, s.blobId); SettledUnread(o, s', b) || SettledRead(o, s', b)
  {
    assert o in [o];
    if o.fact.versionTag == Some("") {
      assert Confirms(o, b);
      assert BlobMatches(b, ContentOf(o).value, true);
    }
  }

  lemma StepSettles(w: World, o: Observed, length: string -> int)
    requires Sound(w) && Step(w, o).1.Done?
    requires HashFixesLength(w.repo, [o], length) && FilesAreNotMessages(w.repo, [o])
    requires !StaleBlankTag(w.repo, o)
    ensures Settled(Step(w, o).0.repo, o)
  {
    StepHasEffect(w, o);
    if IsResource(o.fact) {
      EvidenceIsContent(w, o);
      if EffectOf(o, w.repo, w.nextId).NoChange? {
        QuietIsSettled(w, o);
      } else {
        EffectSettles(EffectOf(o, w.repo, w.nextId), w, Step(w, o).0.repo, o, length);
      }
    }
  }

  // ----- The assumptions about content carry over -----------------------------------

  /** The row a step adds to the blobs holds the fact's own content, in an asset
      of the fact's own kind. */
  lemma NewBlobIsOwn(eff: Effect, r: Repo, r': Repo, f: Fact, n: Id)
    requires Keyed(r) && Unused(r, n) && Describes(eff, r, r', f, n) && !eff.NoChange?
    ensures var k := BlobRow(eff, n);
      k in r'.blobs.rows && k !in r.blobs.rows ==>
        && GetContentEvidence(f).Ok? && GetContentEvidence(f).value.Some?
        && BlobMatches(r'.blobs.rows[k], GetContentEvidence(f).value.value, false)
        && (f.kind.FileKind? ==> HasType(r', r'.blobs.rows[k], File))
  {
  }

  lemma GrownContents(r: Repo, r': Repo, k: Id, e: Option<Evidence>, o: Observed, items: seq<Observed>, length: string -> int)
    requires References(r) && r.blobs.WellFormed() && Grown(r.blobs, r'.blobs, k)
    requires forall a :: a in r.assets.rows ==> a in r'.assets.rows && r'.assets.rows[a] == r.assets.rows[a]
    requires k in r'.blobs.rows && k !in r.blobs.rows ==>
      && e.Some? && e == ContentOf(o) && BlobMatches(r'.blobs.rows[k], e.value, false)
      && (o.fact.kind.FileKind? ==> HasType(r', r'.blobs.rows[k], File))
    requires o in items && (o.fact.kind.FileKind? || o.fact.kind.MessageKind?)
    requires HashFixesLength(r, items, length) && FilesAreNotMessages(r, items)
    ensures HashFixesLength(r', items, length) && FilesAreNotMessages(r', items)
  {
    GrownKeeps(r.blobs, r'.blobs, k);
    forall g | g in items && g.fact.kind.FileKind? && ContentOf(g).Some?
      ensures OnlyFilesHold(r', ContentOf(g).value.sha256)
    {
      assert OnlyFilesHold(r, ContentOf(g).value.sha256);
      assert !SharedContent(g, o);
    }
  }

  lemma EffectContents(
    eff: Effect, r: Repo, r': Repo, f: Fact, n: Id, o: Observed, items: seq<Observed>, length: string -> int)
    requires Keyed(r) && Unused(r, n) && References(r) && Describes(eff, r, r', f, n) && !eff.NoChange?
    requires o in items && f.kind == o.fact.kind && (o.fact.kind.FileKind? || o.fact.kind.MessageKind?)
    requires GetContentEvidence(f).Ok? && (GetContentEvidence(f).value.Some? ==> ContentOf(o) == GetContentEvidence(f).value)
    requires HashFixesLength(r, items, length) && FilesAreNotMessages(r, items)
    ensures HashFixesLength(r', items, length) && FilesAreNotMessages(r', items)
  {
    EffectForm(eff, r, r', f, n);
    EffectKeeps(eff, r, r', f, n);
    NewBlobIsOwn(eff, r, r', f, n);
    hide Describes, HashFixesLength, FilesAreNotMessages, GetContentEvidence, Grown;
    GrownContents(r, r', BlobRow(eff, n), GetContentEvidence(f).value, o, items, length);
  }

  lemma StepContents(w: World, o: Observed, items: seq<Observed>, length: string -> int)
    requires Sound(w) && References(w.repo) && o in items
    requires HashFixesLength(w.repo, items, length) && FilesAreNotMessages(w.repo, items)
    ensures HashFixesLength(Step(w, o).0.repo, items, length) && FilesAreNotMessages(Step(w, o).0.repo, items)
  {
    StepHasEffect(w, o);
    hide HashFixesLength, FilesAreNotMessages;
    if Step(w, o).1.Done? && IsResource(o.fact) {
      EvidenceIsContent(w, o);
      hide Step, Describes, Deciding;
      var f, eff := Deciding(o, w.repo, w.nextId), EffectOf(o, w.repo, w.nextId);
      if !eff.NoChange? {
        EffectContents(eff, w.repo, Step(w, o).0.repo, f, w.nextId, o, items, length);
      } else {
        assert Describes(NoChange, w.repo, Step(w, o).0.repo, f, w.nextId);
        NoChangeMeans(w.repo, Step(w, o).0.repo, f, w.nextId);
      }
    }
  }

  lemma NoChangeMeans(r: Repo, r': Repo, f: Fact, n: Id)
    requires Describes(NoChange, r, r', f, n)
    ensures r' == r
  {
  }

  // ----- The first run settles every fact ---------------------------------------------

  ghost predicate Tame(w: World, items: seq<Observed>, length: string -> int) {
    && Sound(w) && References(w.repo) && DistinctIds(items)
    && HashFixesLength(w.repo, items, length) && FilesAreNotMessages(w.repo, items)
  }

  lemma StepTame(w: World, p: string, items: seq<Observed>, length: string -> int)
    requires items != [] && Tame(w, items, length)
    ensures Tame(Step(w, items[0]).0, items[1..], length)
  {
    StepKeeps(w, items[0]);
    StepReferences(w, items[0]);
    StepContents(w, items[0], items, length);
    hide Step;
    assert forall o :: o in items[1..] ==> o in items;
  }

  /** Once settled (or not), a fact stays so while facts with other identifiers are processed. */
  lemma RestElsewhere(w: World, p: string, items: seq<Observed>)
    requires items != [] && DistinctIds(items) && IsResource(items[0].fact)
    ensures forall o :: o in items[1..] && IsResource(o.fact) ==> o.fact.externalId != items[0].fact.externalId
  {
    forall o | o in items[1..] && IsResource(o.fact) ensures o.fact.externalId != items[0].fact.externalId {
      var j :| 1 <= j < |items| && items[j] == o;
    }
  }

  lemma {:induction false} ScanProvider(w: World, p: string, items: seq<Observed>)
    requires Scan(w, p, items).raised.None?
    ensures forall o :: o in items ==> o.fact.provider == p
    decreases |items|
  {
    hide Step;
    if items != [] {
      ScanProvider(Step(w, items[0]).0, p, items[1..]);
    }
  }

  lemma {:induction false} ScanSettles(w: World, p: string, items: seq<Observed>, length: string -> int)
    requires Tame(w, items, length)
    requires Scan(w, p, items).raised.None? && Scan(w, p, items).disappeared == 0
    requires forall o :: o in items ==> !StaleBlankTag(w.repo, o)
    ensures forall o :: o in items ==> o.fact.provider == p && Settled(Scan(w, p, items).w.repo, o)
    decreases |items|
  {
    if items != [] {
      var o, w' := items[0], Step(w, items[0]).0;
      assert o in items;
      StepSettles(w, o, length);
      StepTame(w, p, items, length);
      hide Step, StaleBlankTag, Settled, IsResource, HashFixesLength, FilesAreNotMessages;
      ScanProvider(w', p, items[1..]);
      forall g | g in items[1..] ensures !StaleBlankTag(w'.repo, g) {
        StaleOnlyEarlier(w, items, g);
      }
      ScanSettles(w', p, items[1..], length);
      if IsResource(o.fact) {
        RestElsewhere(w, p, items);
        ScanElsewhere(w', p, items[1..], o.fact);
      }
      ViewKeepsSettled(w'.repo, Scan(w', p, items[1..]).w.repo, o);
    }
  }

  /** A step on the first fact does not make a later one stale. */
  lemma StaleOnlyEarlier(w: World, items: seq<Observed>, g: Observed)
    requires items != [] && Sound(w) && References(w.repo) && DistinctIds(items) && g in items[1..]
    ensures StaleBlankTag(Step(w, items[0]).0.repo, g) && g.fact.provider == items[0].fact.provider
      ==> StaleBlankTag(w.repo, g)
  {
    if IsResource(g.fact) && g.fact.provider == items[0].fact.provider {
      var j :| 1 <= j < |items| && items[j] == g;
      StepElsewhere(w, items[0], g.fact);
      ViewKeepsStale(w.repo, Step(w, items[0]).0.repo, g);
    }
  }

  // ----- The second run of settled facts ------------------------------------------------

  ghost predicate AllActiveSeen(r: Repo, p: string, seen: set<string>) {
    forall k :: k in r.sources.rows ==>
      (r.sources.rows[k].scope.None? && r.sources.rows[k].provider == p && r.sources.rows[k].isActive
       ==> WasSeen(r.sources.rows[k], seen))
  }

  /** The end of a completed full run, seen from its scan. */
  lemma FullRunTail(w: World, b: Batch) returns (missing: seq<Source>)
    requires Sound(w) && b.mode.FullAuthoritative? && b.tombstones == [] && RunBatch(w, b).1 == Completed
    ensures var s, r1 := Scan(w, b.provider, b.items), RunBatch(w, b).0.repo;
      && s.raised.None? && s.disappeared == 0
      && TurnedOff(s.w.repo, r1, Ids(missing))
      && (forall k :: k in s.w.repo.sources.rows && k in Ids(missing) ==> !WasSeen(s.w.repo.sources.rows[k], s.seen))
      && (forall x :: x in s.seen <==> Some(x) in SeenIds(b.items))
      && AllActiveSeen(r1, b.provider, s.seen)
  {
    var p, s := b.provider, Scan(w, b.provider, b.items);
    var targets, r1, m := CompletedRun(w, b);
    missing := m;
    ScanActiveIds(w, p, b.items);
    hide RunBatch, Scan, TombstoneTargets;
    assert targets == [] by { NoTombstones(s.w.repo, p, b.tombstones); }
    TurnedOffNone(s.w.repo, r1);
    MissingAre(r1, p, s.seen);
  }

  lemma NonEmptyHolds(sources: seq<Source>)
    ensures sources != [] ==> exists s :: s in sources
  {
    if sources != [] {
      assert sources[0] in sources;
    }
  }

  lemma EmptyReconcile(w: World, b: Batch, seen: set<string>)
    requires Keyed(w.repo) && b.tombstones == []
    requires AllActiveSeen(w.repo, b.provider, seen)
    ensures Reconcile(w, b, seen).1 == Completed && Reconcile(w, b, seen).0.repo == w.repo
  {
    ActiveAreStored(w.repo, b.provider);
    var missing := Unseen(ActiveSources(w.repo, b.provider), seen);
    NonEmptyHolds(missing);
    assert Deactivations([], w.clock) == [];
  }

  /** Seen sources are not among the missing ones. */
  lemma TailElsewhere(w: World, b: Batch, o: Observed)
    requires Sound(w) && b.mode.FullAuthoritative? && b.tombstones == [] && RunBatch(w, b).1 == Completed
    requires o in b.items && IsResource(o.fact)
    ensures SameView(Scan(w, b.provider, b.items).w.repo, RunBatch(w, b).0.repo, o.fact)
  {
    var missing := FullRunTail(w, b);
    ScanKeeps(w, b.provider, b.items);
    hide RunBatch, Scan;
    assert o.fact.externalId in SeenIds(b.items);
    OffElsewhere(Scan(w, b.provider, b.items).w.repo, RunBatch(w, b).0.repo, Ids(missing), o.fact);
  }

  lemma SecondRunIsQuiet(w: World, b: Batch, length: string -> int)
    requires b.mode.FullAuthoritative? && b.tombstones == [] && RunBatch(w, b).1 == Completed
    requires Tame(w, b.items, length) && forall o :: o in b.items ==> !StaleBlankTag(w.repo, o)
    ensures RunBatch(RunBatch(w, b).0, b).1 == Completed
    ensures RunBatch(RunBatch(w, b).0, b).0.repo == RunBatch(w, b).0.repo
  {
    var p, s, w1 := b.provider, Scan(w, b.provider, b.items), RunBatch(w, b).0;
    var missing := FullRunTail(w, b);
    RunKeeps(w, b);
    ScanSettles(w, p, b.items, length);
    forall o | o in b.items ensures o.fact.provider == p && Settled(w1.repo, o) {
      if IsResource(o.fact) {
        TailElsewhere(w, b, o);
      }
      ViewKeepsSettled(s.w.repo, w1.repo, o);
    }
    SettledScan(w1, p, b.items);
    var s1 := Scan(w1, p, b.items);
    ScanActiveIds(w1, p, b.items);
    assert b.interruption.None?;
    hide Scan, Reconcile, Settled, StaleBlankTag;
    assert forall x :: x in s1.seen <==> x in s.seen;
    assert forall x: Source :: WasSeen(x, s1.seen) <==> WasSeen(x, s.seen);
    EmptyReconcile(s1.w, b, s1.seen);
    assert RunBatch(w1, b) == Reconcile(s1.w, b, s1.seen);
  }

  // ----- The family that does not settle ---------------------------------------------

  /** After a stale blank tag was taken over: the next run must read, and the read
      will not confirm what is stored. */
  ghost predicate Pending(r: Repo, o: Observed, s: Source) {
    && IsResource(o.fact) && o.fact.versionTag == Some("") && GetContentEvidence(o.fact) == Ok(None)
    && s.versionTag == Some("")
    && exists b :: Owns(r, o.fact, s, b) && !Confirms(o, b)
  }

  lemma ViewKeepsPending(r: Repo, r': Repo, o: Observed, s: Source)
    requires o.fact.externalId.Some? && SameView(r, r', o.fact) && Pending(r, o, s)
    ensures Pending(r', o, s)
  {
    var b :| Owns(r, o.fact, s, b) && !Confirms(o, b);
    assert Owns(r', o.fact, s, b);
  }

  lemma StaleStep(w: World, o: Observed) returns (s: Source)
    requires Sound(w) && StaleBlankTag(w.repo, o) && Step(w, o).1.Done?
    ensures Pending(Step(w, o).0.repo, o, s)
  {
    var s0, b :| Owns(w.repo, o.fact, s0, b) && s0.versionTag.None? && !SameVersionNeedsEvidence(o.fact, s0, b) && !Confirms(o, b);
    var f, n := o.fact, w.nextId;
    EvidenceIsContent(w, o);
    StaleEffect(w.repo, o, n, s0, b);
    StepHasEffect(w, o);
    StoredIsOwned(Refresh(s0, b), w.repo, Step(w, o).0.repo, f, n);
    s := UpdatedSource(s0, f, s0.blobId);
  }

  lemma StaleEffect(r: Repo, o: Observed, n: Id, s: Source, b: Blob)
    requires IsResource(o.fact) && ValidSize(o.fact.size)
    requires Owns(r, o.fact, s, b) && o.fact.versionTag == Some("") && GetContentEvidence(o.fact) == Ok(None)
    requires s.versionTag.None? && !SameVersionNeedsEvidence(o.fact, s, b)
    ensures Deciding(o, r, n) == o.fact && EffectOf(o, r, n) == Refresh(s, b)
  {
    MatchOwned(r, o.fact, n, s, b);
    hide Match;
    DecideFinal(r, o, n);
  }

  /** The row with identifier k now has another blob or another version tag. */
  ghost predicate Moved(r: Repo, s: Source) {
    s.id in r.sources.rows && (r.sources.rows[s.id].blobId != s.blobId || r.sources.rows[s.id].versionTag != s.versionTag)
  }

  lemma PendingStep(w: World, o: Observed, s: Source)
    requires Sound(w) && Pending(w.repo, o, s) && Step(w, o).1.Done?
    ensures Moved(Step(w, o).0.repo, s)
  {
    var r, n := w.repo, w.nextId;
    var b :| Owns(r, o.fact, s, b) && !Confirms(o, b);
    EvidenceIsContent(w, o);
    FoundSource(r, o.fact.provider, o.fact.externalId.value);
    PendingDecision(r, o, n, s, b);
    StepHasEffect(w, o);
    PendingEffect(EffectOf(o, r, n), r, Step(w, o).0.repo, o, Deciding(o, r, n), n, s, b);
  }

  lemma PendingDecision(r: Repo, o: Observed, n: Id, s: Source, b: Blob)
    requires Keyed(r) && IsResource(o.fact) && ValidSize(o.fact.size) && Owns(r, o.fact, s, b)
    requires o.fact.versionTag == Some("") && GetContentEvidence(o.fact) == Ok(None) && s.versionTag == Some("")
    requires Decide(o, r, n).Act?
    ensures o.body.Bytes? && Deciding(o, r, n) == o.fact.WithEvidence(o.body.evidence)
    ensures !EffectOf(o, r, n).NoChange?
  {
    var f := o.fact;
    MatchOwned(r, f, n, s, b);
    hide Match;
    assert NeedsContent(o, r, n);
    var f' := f.WithEvidence(o.body.evidence);
    MatchOwned(r, f', n, s, b);
    assert GetContentEvidence(f') == Ok(Some(o.body.evidence));
    if f.kind.FileKind? {
      assert s.versionTag != ComparableTag(f');
    } else {
      assert !Unchanged(f', s);
    }
  }

  lemma PendingEffect(eff: Effect, r: Repo, r': Repo, o: Observed, f: Fact, n: Id, s: Source, b: Blob)
    requires Keyed(r) && Unused(r, n) && Describes(eff, r, r', f, n) && !eff.NoChange?
    requires IsResource(o.fact) && Owns(r, o.fact, s, b) && !Confirms(o, b) && s.versionTag == Some("")
    requires o.body.Bytes? && f == o.fact.WithEvidence(o.body.evidence)
    ensures Moved(r', s)
  {
    FoundSource(r, f.provider, f.externalId.value);
    if eff.Repoint? {
      assert o.fact.kind.FileKind? ==> b.hash != Some(eff.e.sha256);
    }
  }

  lemma RestDistinct(items: seq<Observed>)
    requires items != [] && DistinctIds(items)
    ensures DistinctIds(items[1..])
  {
  }

  lemma PendingIsResource(r: Repo, o: Observed, s: Source)
    requires Pending(r, o, s)
    ensures IsResource(o.fact)
  {
  }

  lemma ScanTail(w: World, p: string, items: seq<Observed>)
    requires items != [] && Scan(w, p, items).raised.None? && Scan(w, p, items).disappeared == 0
    ensures Step(w, items[0]).1.Done? && items[0].fact.provider == p
    ensures var rest := Scan(Step(w, items[0]).0, p, items[1..]);
      rest.raised.None? && rest.disappeared == 0 && rest.w == Scan(w, p, items).w
  {
    hide Step;
  }

  /** The first run leaves a stale fact pending. */
  lemma {:induction false} ScanLeavesPending(w: World, p: string, items: seq<Observed>, o: Observed) returns (s: Source)
    requires Sound(w) && References(w.repo) && DistinctIds(items) && o in items && StaleBlankTag(w.repo, o)
    requires Scan(w, p, items).raised.None? && Scan(w, p, items).disappeared == 0
    ensures Pending(Scan(w, p, items).w.repo, o, s)
    decreases |items|
  {
    hide Step, Pending, References, SameView;
    var w' := Step(w, items[0]).0;
    StepKeeps(w, items[0]);
    StepReferences(w, items[0]);
    RestDistinct(items);
    ScanTail(w, p, items);
    hide Scan, DistinctIds, Sound;
    if items[0] == o {
      s := StaleStep(w, o);
      RestElsewhere(w, p, items);
      ScanElsewhere(w', p, items[1..], o.fact);
      ViewKeepsPending(w'.repo, Scan(w', p, items[1..]).w.repo, o, s);
    } else {
      assert o in items[1..];
      LaterElsewhere(w, p, items, o);
      ViewKeepsStale(w.repo, w'.repo, o);
      s := ScanLeavesPending(w', p, items[1..], o);
    }
  }

  lemma LaterElsewhere(w: World, p: string, items: seq<Observed>, o: Observed)
    requires Sound(w) && References(w.repo) && DistinctIds(items) && items != [] && o in items[1..] && IsResource(o.fact)
    requires Scan(w, p, items).raised.None?
    ensures SameView(w.repo, Step(w, items[0]).0.repo, o.fact)
  {
    var j :| 1 <= j < |items| && items[j] == o;
    ScanProvider(w, p, items);
    StepElsewhere(w, items[0], o.fact);
  }

  /** A run that reads everything moves the source of a pending fact. */
  lemma {:induction false} ScanMoves(w: World, p: string, items: seq<Observed>, o: Observed, s: Source)
    requires Sound(w) && References(w.repo) && DistinctIds(items) && o in items && Pending(w.repo, o, s)
    requires Scan(w, p, items).raised.None? && Scan(w, p, items).disappeared == 0
    ensures Moved(Scan(w, p, items).w.repo, s)
    decreases |items|
  {
    PendingIsResource(w.repo, o, s);
    hide Step, Pending, References;
    var w' := Step(w, items[0]).0;
    StepKeeps(w, items[0]);
    StepReferences(w, items[0]);
    RestDistinct(items);
    ScanTail(w, p, items);
    hide Scan, DistinctIds;
    if items[0] == o {
      FoundSource(w.repo, o.fact.provider, o.fact.externalId.value);
      PendingStep(w, o, s);
      MovedIsFound(w, o, s);
      RestElsewhere(w, p, items);
      ScanElsewhere(w', p, items[1..], o.fact);
    } else {
      assert o in items[1..];
      LaterElsewhere(w, p, items, o);
      ViewKeepsPending(w.repo, w'.repo, o, s);
      ScanMoves(w', p, items[1..], o, s);
    }
  }

  /** The moved row is still the one its fact finds. */
  lemma MovedIsFound(w: World, o: Observed, s: Source)
    requires Sound(w) && Pending(w.repo, o, s) && Step(w, o).1.Done?
    ensures var found := FindUnscoped(Step(w, o).0.repo, o.fact.provider, o.fact.externalId.value);
      found.Some? && found.value.id == s.id
  {
    var r, n := w.repo, w.nextId;
    var b :| Owns(r, o.fact, s, b) && !Confirms(o, b);
    EvidenceIsContent(w, o);
    PendingDecision(r, o, n, s, b);
    StepHasEffect(w, o);
    var eff := EffectOf(o, r, n);
    hide EffectOf, Step;
    StoredIsFound(eff, r, Step(w, o).0.repo, Deciding(o, r, n), n);
  }

  lemma SecondRunDiffers(w: World, b: Batch, o: Observed)
    requires b.mode.FullAuthoritative? && b.tombstones == [] && RunBatch(w, b).1 == Completed
    requires Sound(w) && References(w.repo) && DistinctIds(b.items)
    requires o in b.items && StaleBlankTag(w.repo, o)
    ensures RunBatch(RunBatch(w, b).0, b).1 != Completed
      || RunBatch(RunBatch(w, b).0, b).0.repo != RunBatch(w, b).0.repo
  {
    var p, s, w1 := b.provider, Scan(w, b.provider, b.items), RunBatch(w, b).0;
    var _ := FullRunTail(w, b);
    RunKeeps(w, b);
    var src := ScanLeavesPending(w, p, b.items, o);
    TailElsewhere(w, b, o);
    ViewKeepsPending(s.w.repo, w1.repo, o, src);
    RunReferences(w, b);
    if RunBatch(w1, b).1 == Completed {
      var missing := FullRunTail(w1, b);
      FoundSource(w1.repo, o.fact.provider, o.fact.externalId.value);
      ScanMoves(w1, p, b.items, o, src);
    }
  }

  lemma RunReferences(w: World, b: Batch)
    requires b.mode.FullAuthoritative? && b.tombstones == [] && RunBatch(w, b).1 == Completed
    requires Sound(w) && References(w.repo)
    ensures References(RunBatch(w, b).0.repo)
  {
    var missing := FullRunTail(w, b);
    ScanReferences(w, b.provider, b.items);
    hide RunBatch, Scan;
  }

  lemma {:induction false} ScanReferences(w: World, p: string, items: seq<Observed>)
    requires Sound(w) && References(w.repo)
    ensures References(Scan(w, p, items).w.repo)
    decreases |items|
  {
    if items != [] {
      StepKeeps(w, items[0]);
      StepReferences(w, items[0]);
      hide Step;
      ScanReferences(Step(w, items[0]).0, p, items[1..]);
    }
  }

  /** Idempotence, exactly: a second full sync with the same facts and contents
      completes and leaves assets, blobs and sources as the first left them, if and
      only if no fact is in the stale-blank-tag family beforehand. */
  lemma IdempotentExactlyWhen(w: World, b: Batch, length: string -> int)
    requires b.mode.FullAuthoritative? && b.tombstones == [] && RunBatch(w, b).1 == Completed
    requires Tame(w, b.items, length)
    ensures (RunBatch(RunBatch(w, b).0, b).1 == Completed
             && RunBatch(RunBatch(w, b).0, b).0.repo == RunBatch(w, b).0.repo)
      <==> (forall o :: o in b.items ==> !StaleBlankTag(w.repo, o))
  {
    if o :| o in b.items && StaleBlankTag(w.repo, o) {
      SecondRunDiffers(w, b, o);
    } else {
      SecondRunIsQuiet(w, b, length);
    }
  }
}
