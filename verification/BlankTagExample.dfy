/** A concrete member of the family that is not idempotent: a stored file without
    a version tag, rediscovered with an empty one while its content has changed. */
module BlankTagExample {
  import opened Prelude
  import opened WorldModel
  import opened Matcher
  import opened Reconciliation
  import opened StepEffects
  import opened WorldInvariants
  import opened Idempotence
  import opened SecondRun

  const OLD_HASH: string := seq(64, i => 'a')
  const NEW_HASH: string := seq(64, i => 'b')

  const STORED := Source(2, Some(1), "files", Some("x"), None, None, Some("x"), None, None, None, map[], true, None)

  const BEFORE := World(
    Repo(Table([0], map[0 := Asset(0, File)]),
         Table([1], map[1 := Blob(1, Some(0), Some(OLD_HASH), Some(7), None)]),
         Table([2], map[2 := STORED])), 3, 0)

  const FACT := Fact("files", FileKind, Some("x"), Some("x"), None, Some(""), None, NoSize, None, None, map[])

  const SYNC := Batch("files", FullAuthoritative, [Observed(FACT, Bytes(Evidence(NEW_HASH, 7)))], None, None, [])

  lemma FindsStored(r: Repo, s: Source)
    requires r.sources.order == [2] && r.sources.rows == map[2 := s] && IsUnscoped(s, "files", "x")
    ensures FindUnscoped(r, "files", "x") == Some(s)
  {
    assert r.sources.order[0] == 2;
  }

  lemma ExampleInvariant()
    ensures Invariant(BEFORE)
  {
  }

  lemma ExampleTame()
    ensures Tame(BEFORE, SYNC.items, (h: string) => 7)
  {
    ExampleInvariant();
    hide Invariant;
    assert forall o :: o in SYNC.items ==> o == SYNC.items[0];
    assert OLD_HASH[0] == 'a' && NEW_HASH[0] == 'b';
    hide Sound, References;
    assert FilesAreNotMessages(BEFORE.repo, SYNC.items);
    assert HashFixesLength(BEFORE.repo, SYNC.items, (h: string) => 7);
  }

  lemma ExampleOwns()
    ensures Owns(BEFORE.repo, FACT, STORED, BEFORE.repo.blobs.rows[1])
    ensures IsResource(FACT) && !Confirms(SYNC.items[0], BEFORE.repo.blobs.rows[1])
  {
    FindsStored(BEFORE.repo, STORED);
    assert OLD_HASH[0] == 'a' && NEW_HASH[0] == 'b';
    assert !IsSpace(FACT.provider[0]);
  }

  lemma ExampleStart()
    ensures Invariant(BEFORE) && Tame(BEFORE, SYNC.items, (h: string) => 7)
    ensures Owns(BEFORE.repo, FACT, STORED, BEFORE.repo.blobs.rows[1])
    ensures IsResource(FACT) && !Confirms(SYNC.items[0], BEFORE.repo.blobs.rows[1])
    ensures StaleBlankTag(BEFORE.repo, SYNC.items[0])
  {
    ExampleInvariant();
    ExampleTame();
    ExampleOwns();
    hide Invariant, Tame, Owns, Confirms;
  }

  /** A stale fact is decided without reading content, and only rewrites its source. */
  lemma StaleStep(w: World, o: Observed, s: Source, b: Blob)
    requires Sound(w) && IsResource(o.fact) && ValidSize(o.fact.size)
    requires Owns(w.repo, o.fact, s, b) && o.fact.versionTag == Some("") && GetContentEvidence(o.fact) == Ok(None)
    requires s.versionTag.None? && !SameVersionNeedsEvidence(o.fact, s, b)
    ensures Step(w, o).1.Done? && Sound(Step(w, o).0)
    ensures Step(w, o).0.repo == w.repo.(sources := w.repo.sources.Put(s.id, UpdatedSource(s, o.fact, s.blobId)))
  {
    hide Match, Step, Owns, SameVersionNeedsEvidence;
    StaleEffect(w.repo, o, w.nextId, s, b);
    MatchOwned(w.repo, o.fact, w.nextId, s, b);
    DecideFinal(w.repo, o, w.nextId);
    StepHasEffect(w, o);
    StepKeeps(w, o);
    assert Describes(Refresh(s, b), w.repo, Step(w, o).0.repo, o.fact, w.nextId);
  }

  lemma ExampleStep()
    ensures Step(BEFORE, SYNC.items[0]).1.Done?
    ensures Sound(Step(BEFORE, SYNC.items[0]).0)
    ensures Step(BEFORE, SYNC.items[0]).0.repo.sources.rows == map[2 := UpdatedSource(STORED, FACT, Some(1))]
  {
    ExampleStart();
    hide Tame, Confirms, StaleBlankTag, Step, Owns, Invariant, UpdatedSource;
    StaleStep(BEFORE, SYNC.items[0], STORED, BEFORE.repo.blobs.rows[1]);
  }

  lemma FirstRunCompletes()
    ensures RunBatch(BEFORE, SYNC).1 == Completed
  {
    ExampleStep();
    var o, w := SYNC.items[0], Step(BEFORE, SYNC.items[0]).0;
    ScanOne(BEFORE, "files", o);
    var s := Scan(BEFORE, "files", SYNC.items);
    hide Step, Scan, Reconcile;
    assert s.w == w && s.seen == {"x"};
    EmptyReconcile(w, SYNC, s.seen);
  }

  lemma ScanOne(w: World, p: string, o: Observed)
    requires o.fact.provider == p && Step(w, o).1.Done?
    ensures Scan(w, p, [o]) == ScanResult(Step(w, o).0, SeenBy(o.fact), 0, None)
  {
    hide Step;
    var items := [o];
    assert items[1..] == [];
    assert Scan(Step(w, o).0, p, items[1..]) == ScanResult(Step(w, o).0, {}, 0, None);
  }

  /** The first sync completes and the second, with the same facts, is not a no-op. */
  lemma SecondSyncIsNotIdempotent()
    ensures RunBatch(BEFORE, SYNC).1 == Completed
    ensures var after := RunBatch(BEFORE, SYNC).0;
      RunBatch(after, SYNC).1 != Completed || RunBatch(after, SYNC).0.repo != after.repo
  {
    ExampleStart();
    FirstRunCompletes();
    hide RunBatch, Tame, StaleBlankTag;
    IdempotentExactlyWhen(BEFORE, SYNC, (h: string) => 7);
  }
}
