/** What becomes of one fact, told from its own fields and the stored rows. */
module FactLaws {
  import opened Prelude
  import opened WorldModel
  import opened Matcher
  import opened Reconciliation
  import opened StepEffects
  import opened WorldInvariants
  import opened Convergence
  import opened Idempotence
  import opened SecondRun

  /** The row says what the fact says; its version tag apart, which for a message
      may be the hash of its body. */
  predicate Mirrors(s: Source, f: Fact) {
    && s.isActive && s.deletedAt.None? && s.scope.None?
    && s.provider == f.provider && s.externalId == f.externalId && s.path == f.path && s.name == f.name
    && s.mimeType == f.mimeType && s.metadata == f.raw
    && s.providerSize == (if f.size.IntegerSize? then Some(f.size.n) else None)
    && (f.kind.FileKind? ==> s.versionTag == f.versionTag)
  }

  /** The source's blob belongs to an asset of that type. */
  predicate IsOf(r: Repo, s: Source, t: ResourceType) {
    s.blobId.Some? && s.blobId.value in r.blobs.rows && HasType(r, r.blobs.rows[s.blobId.value], t)
  }

  lemma ResourceNamed(f: Fact)
    ensures NamesResource(f) <==> IsResource(f)
  {
  }

  predicate NoSourceOf(r: Repo, f: Fact) {
    forall k :: k in r.sources.rows && r.sources.rows[k].scope.None? && r.sources.rows[k].provider == f.provider ==>
      r.sources.rows[k].externalId != f.externalId
  }

  /** A new file whose content is stored already, first of all for something that
      is no file: the new source then shares that blob. */
  ghost predicate Borrows(r: Repo, o: Observed) {
    && o.fact.kind.FileKind? && NoSourceOf(r, o.fact) && ContentOf(o).Some?
    && FindBlobByHash(r, ContentOf(o).value.sha256).Some?
    && !HasType(r, FindBlobByHash(r, ContentOf(o).value.sha256).value, File)
  }

  /** Some row mirrors the fact, its blob is stored, and, if the fact was new,
      holds the fact's content. */
  ghost predicate Upheld(r: Repo, r': Repo, o: Observed, s: Source) {
    && s.id in r'.sources.rows && r'.sources.rows[s.id] == s && Mirrors(s, o.fact)
    && s.blobId.Some? && s.blobId.value in r'.blobs.rows
    && (NoSourceOf(r, o.fact) ==>
          && ContentOf(o).Some?
          && r'.blobs.rows[s.blobId.value].hash == Some(ContentOf(o).value.sha256)
          && r'.blobs.rows[s.blobId.value].size == Some(ContentOf(o).value.byteLength))
  }

  lemma NothingFound(r: Repo, f: Fact)
    requires Keyed(r) && f.externalId.Some?
    ensures FindUnscoped(r, f.provider, f.externalId.value).None? <==> NoSourceOf(r, f)
  {
    FoundSource(r, f.provider, f.externalId.value);
    if FindUnscoped(r, f.provider, f.externalId.value).None? {
      assert forall k :: k in r.sources.rows ==> !UnscopedKey(f.provider, f.externalId.value)(r.sources.rows[k]);
    }
  }

  lemma NewIsUpheld(eff: Effect, r: Repo, r': Repo, o: Observed, f: Fact, n: Id)
    requires Keyed(r) && Unused(r, n) && Describes(eff, r, r', f, n) && (eff.NewResource? || eff.NewSource?)
    requires f == o.fact || f == o.fact.WithEvidence(eff.e)
    requires ContentOf(o) == Some(eff.e)
    ensures NoSourceOf(r, o.fact) && Upheld(r, r', o, StoredSource(eff, f, n))
    ensures o.fact.kind.MessageKind? ==> IsOf(r', StoredSource(eff, f, n), Message)
    ensures o.fact.kind.FileKind? ==> (IsOf(r', StoredSource(eff, f, n), File) <==> !Borrows(r, o))
  {
    NothingFound(r, f);
    FoundBlob(r, eff.e.sha256);
    assert eff.NewResource? ==> f.kind == KindOf(eff.t);
  }

  lemma FoundBlob(r: Repo, hash: string)
    requires Keyed(r)
    ensures var b := FindBlobByHash(r, hash); b.Some? ==> b.value.id in r.blobs.rows && r.blobs.rows[b.value.id] == b.value
  {
  }

  lemma KnownIsUpheld(eff: Effect, r: Repo, r': Repo, o: Observed, f: Fact, n: Id)
    requires Keyed(r) && Unused(r, n) && Describes(eff, r, r', f, n) && (eff.Repoint? || eff.NewBlob? || eff.Refresh?)
    requires SameButContent(f, o.fact)
    ensures !NoSourceOf(r, o.fact) && Upheld(r, r', o, StoredSource(eff, f, n))
    ensures o.fact.kind.MessageKind? ==> IsOf(r', StoredSource(eff, f, n), Message)
    ensures o.fact.kind.FileKind? ==> IsOf(r', StoredSource(eff, f, n), File)
  {
    hide Describes, StoredSource, HasType, Keyed, Unused;
    KnownMirrors(eff, r, r', f, n);
    NothingFound(r, f);
    EffectBlob(eff, r, r', f, n);
    EffectForm(eff, r, r', f, n);
    KnownKeepsType(eff, r, r', f, n);
    hide MayStore, Grown, IsOf;
  }

  predicate SameButContent(f: Fact, g: Fact) {
    && f == g.(contentHash := f.contentHash, contentLength := f.contentLength, versionTag := f.versionTag)
    && (f.kind.FileKind? ==> f.versionTag == g.versionTag)
  }

  lemma KnownMirrors(eff: Effect, r: Repo, r': Repo, f: Fact, n: Id)
    requires Keyed(r) && Describes(eff, r, r', f, n) && (eff.Repoint? || eff.NewBlob? || eff.Refresh?)
    ensures f.externalId.Some?
    ensures Mirrors(StoredSource(eff, f, n), f) && FindUnscoped(r, f.provider, f.externalId.value).Some?
  {
    FoundSource(r, f.provider, f.externalId.value);
  }

  lemma KnownKeepsType(eff: Effect, r: Repo, r': Repo, f: Fact, n: Id)
    requires Keyed(r) && Unused(r, n) && Describes(eff, r, r', f, n) && (eff.Repoint? || eff.NewBlob? || eff.Refresh?)
    ensures f.kind.MessageKind? ==> IsOf(r', StoredSource(eff, f, n), Message)
    ensures f.kind.FileKind? ==> IsOf(r', StoredSource(eff, f, n), File)
  {
    if eff.Repoint? {
      var current :| Owns(r, f, eff.s, current) && (eff.blob == current || eff.blob.assetId == current.assetId);
    }
  }

  lemma QuietIsUpheld(w: World, o: Observed) returns (s: Source)
    requires Sound(w) && Step(w, o).1.Done? && IsResource(o.fact)
    requires EffectOf(o, w.repo, w.nextId).NoChange?
    ensures !NoSourceOf(w.repo, o.fact) && Upheld(w.repo, w.repo, o, s)
    ensures o.fact.kind.MessageKind? ==> IsOf(w.repo, s, Message)
    ensures o.fact.kind.FileKind? ==> IsOf(w.repo, s, File)
  {
    QuietIsSettled(w, o);
    var b;
    s, b :| Owns(w.repo, o.fact, s, b) && (SettledUnread(o, s, b) || SettledRead(o, s, b));
    FoundSource(w.repo, o.fact.provider, o.fact.externalId.value);
    NothingFound(w.repo, o.fact);
  }

  /** A fact that names a provider and an identifier, of a file or a message: once
      it is done, an active source of that key says what the fact says, over a
      stored blob, which for a new fact is the fact's content. The blob is of the
      fact's kind, with one exception. */
  lemma DoneFactIsUpheld(w: World, o: Observed) returns (s: Source)
    requires Sound(w) && Step(w, o).1.Done?
    requires NamesResource(o.fact)
    ensures Upheld(w.repo, Step(w, o).0.repo, o, s)
    ensures o.fact.kind == MessageKind ==> IsOf(Step(w, o).0.repo, s, Message)
    ensures o.fact.kind == FileKind ==> (IsOf(Step(w, o).0.repo, s, File) <==> !Borrows(w.repo, o))
  {
    StepHasEffect(w, o);
    EvidenceIsContent(w, o);
    var f, eff := Deciding(o, w.repo, w.nextId), EffectOf(o, w.repo, w.nextId);
    var r' := Step(w, o).0.repo;
    if eff.NoChange? {
      s := QuietIsUpheld(w, o);
      NoChangeMeans(w.repo, r', f, w.nextId);
    } else {
      hide EffectOf, Step;
      s := StoredSource(eff, f, w.nextId);
      if eff.NewResource? || eff.NewSource? {
        NewIsUpheld(eff, w.repo, r', o, f, w.nextId);
      } else {
        KnownIsUpheld(eff, w.repo, r', o, f, w.nextId);
      }
    }
  }

  /** Every other fact changes nothing, and is done unless it is a folder with a
      size that is no size. */
  lemma OtherFactsDoNothing(w: World, o: Observed)
    requires !NamesResource(o.fact)
    ensures Step(w, o).0.repo == w.repo
    ensures Step(w, o).1.Raised? ==> o.fact.kind == FolderKind && Step(w, o).1 == Raised(InvalidProviderSize)
  {
    assert !IsResource(o.fact);
    if Match(o.fact, w.repo, w.nextId).Ok? {
      DecideFinal(w.repo, o, w.nextId);
      hide Match;
      ExecuteOne(w.repo, Match(o.fact, w.repo, w.nextId).value);
    }
  }

  /** Evidence of another length than the fact's size: the fact is never done. */
  lemma WrongLengthRaises(w: World, o: Observed)
    requires NamesResource(o.fact)
    requires o.fact.contentHash.Some? && o.fact.contentLength.Some?
    requires o.fact.size.IntegerSize? && o.fact.size.n != o.fact.contentLength.value
    ensures Step(w, o).1.Raised? && Step(w, o).0 == w
  {
    assert GetContentEvidence(o.fact).Err?;
    hide GetContentEvidence, MatchVerifiedContent;
  }

  /** A body as it should be: a hash of 64 hexadecimal digits, and a length that
      fits, equal to the size if there is one. */
  predicate IsBodyOf(f: Fact, e: Evidence) {
    && IsContent(e)
    && (f.size == NoSize || f.size == IntegerSize(e.byteLength))
  }

  predicate IsContent(e: Evidence) {
    && |e.sha256| == 64 && (forall i :: 0 <= i < 64 ==> e.sha256[i] in "0123456789abcdefABCDEF")
    && 0 <= e.byteLength < 0x8000_0000_0000_0000
  }

  /** The body read for a fact has another length than the fact's size: that is the
      error, unless the evidence itself is refused. */
  lemma WrongBodyRaises(w: World, o: Observed)
    requires o.body.Bytes? && o.fact.size.IntegerSize? && o.fact.size.n != o.body.evidence.byteLength
    requires NeedsContent(o, w.repo, w.nextId)
    ensures Step(w, o).1.Raised? && Step(w, o).0 == w
    ensures IsContent(o.body.evidence) ==> Step(w, o).1 == Raised(ProviderSizeMismatch)
  {
    WrongEvidence(o.fact.WithEvidence(o.body.evidence), o.body.evidence);
    MatchesAlike(o, w.repo, w.nextId);
    hide Match, GetContentEvidence, IsContent;
  }

  lemma WrongEvidence(f: Fact, e: Evidence)
    requires f.contentHash == Some(e.sha256) && f.contentLength == Some(e.byteLength)
    requires f.size.IntegerSize? && f.size.n != e.byteLength
    ensures GetContentEvidence(f).Err?
    ensures IsContent(e) ==> GetContentEvidence(f).error == ProviderSizeMismatch
  {
  }

  lemma RightEvidence(f: Fact, e: Evidence)
    requires f.contentHash == Some(e.sha256) && f.contentLength == Some(e.byteLength) && IsBodyOf(f, e)
    ensures GetContentEvidence(f) == Ok(Some(e)) && ValidSize(f.size)
  {
  }

  /** Looking again at a fact with its content: nothing new can go wrong before the
      evidence is checked. */
  lemma MatchesAlike(o: Observed, r: Repo, n: Id)
    requires NeedsContent(o, r, n) && o.body.Bytes?
    requires GetContentEvidence(o.fact.WithEvidence(o.body.evidence)).Err?
    ensures Match(o.fact.WithEvidence(o.body.evidence), r, n) == Err(GetContentEvidence(o.fact.WithEvidence(o.body.evidence)).error)
  {
    var f, f' := o.fact, o.fact.WithEvidence(o.body.evidence);
    assert FindSource(r, f.provider, f.externalId.value) == FindSource(r, f'.provider, f'.externalId.value);
    hide GetContentEvidence, MatchVerifiedContent, FindSource;
  }

  /** A new file or message with a proper body is done, unless a blob of that
      content is stored under another length. */
  lemma NewFactIsDone(w: World, o: Observed)
    requires Sound(w) && o.fact.contentHash.None? && o.fact.contentLength.None?
    requires NamesResource(o.fact)
    requires forall k :: k in w.repo.sources.rows ==> w.repo.sources.rows[k].externalId != o.fact.externalId
    requires o.body.Bytes? && IsBodyOf(o.fact, o.body.evidence)
    requires forall k :: k in w.repo.blobs.rows && w.repo.blobs.rows[k].hash == Some(o.body.evidence.sha256) ==>
      w.repo.blobs.rows[k].size == Some(o.body.evidence.byteLength)
    ensures Step(w, o).1.Done?
  {
    var f' := o.fact.WithEvidence(o.body.evidence);
    RightEvidence(f', o.body.evidence);
    NothingFound(w.repo, o.fact);
    FoundBlob(w.repo, o.body.evidence.sha256);
    hide IsBodyOf;
    assert FindSource(w.repo, f'.provider, f'.externalId.value) == Ok(None) by {
      var scoped := ScopedMatches(w.repo, f'.provider, f'.externalId.value);
      HasMember(scoped);
    }
    NewMatches(o.fact, f', w.repo, w.nextId, o.body.evidence);
    hide Match;
    DecideAfterRead(w.repo, o, w.nextId);
    StepHasEffect(w, o);
  }

  lemma HasMember<T>(s: seq<T>)
    ensures s == [] || exists x :: x in s
  {
    if s != [] {
      assert s[0] in s;
    }
  }

  lemma NewMatches(f: Fact, f': Fact, r: Repo, n: Id, e: Evidence)
    requires IsResource(f) && ValidSize(f.size) && f.contentHash.None? && f.contentLength.None?
    requires FindSource(r, f.provider, f.externalId.value) == Ok(None)
    requires f' == f.WithEvidence(e) && GetContentEvidence(f') == Ok(Some(e))
    requires var b := FindBlobByHash(r, e.sha256); b.Some? ==> BlobMatches(b.value, e, false)
    ensures Match(f, r, n) == Ok(EvidenceRequired())
    ensures Match(f', r, n).Ok? && Match(f', r, n).value.requirements == {}
  {
    assert GetContentEvidence(f) == Ok(None);
    hide GetContentEvidence, FindSource, FindBlobByHash;
  }

  // ----- A file with a message's content ---------------------------------------------

  /** Once a file has borrowed a message's blob, its own fact is refused, whatever runs
      come in between. */
  lemma BorrowedIsRefused(w: World, o: Observed, batches: seq<Batch>, again: Observed)
    requires Invariant(w) && Step(w, o).1.Done? && NamesResource(o.fact) && Borrows(w.repo, o)
    requires again.fact.provider == o.fact.provider && again.fact.externalId == o.fact.externalId
    requires again.fact.kind == FileKind && again.fact.size == o.fact.size
    ensures Step(RunAll(Step(w, o).0, batches), again).1 == Raised(ResourceTypeMismatch)
  {
    var s := DoneFactIsUpheld(w, o);
    DoneMeansValidSize(w, o);
    StepKeeps(w, o);
    RunAllKeeps(Step(w, o).0, batches);
    hide Borrows, Step, RunAll;
    StaysOfOtherType(Step(w, o).0, RunAll(Step(w, o).0, batches), again, s);
  }

  lemma StaysOfOtherType(w: World, later: World, o: Observed, s: Source)
    requires Invariant(w) && Invariant(later) && Kept(w.repo, later.repo)
    requires NamesResource(o.fact) && o.fact.kind == FileKind && ValidSize(o.fact.size)
    requires s.id in w.repo.sources.rows && w.repo.sources.rows[s.id] == s && !IsOf(w.repo, s, File)
    requires IsUnscoped(s, o.fact.provider, o.fact.externalId.value)
    ensures Step(later, o).1 == Raised(ResourceTypeMismatch)
  {
    var s' := later.repo.sources.rows[s.id];
    assert SameIdentity(s, s') && AssetOf(w.repo, s).Some?;
    assert AssetOf(later.repo, s') == AssetOf(w.repo, s);
    assert !IsOf(later.repo, s', File);
    FoundSource(later.repo, o.fact.provider, o.fact.externalId.value);
    NothingFound(later.repo, o.fact);
    hide Step, IsOf;
    RefusedForType(later, o, s');
  }

  lemma DoneMeansValidSize(w: World, o: Observed)
    requires Step(w, o).1.Done? && NamesResource(o.fact)
    ensures ValidSize(o.fact.size)
  {
    EvidenceIsContent(w, o);
  }

  lemma RefusedForType(w: World, o: Observed, s: Source)
    requires Invariant(w) && NamesResource(o.fact) && o.fact.kind == FileKind && ValidSize(o.fact.size)
    requires FindUnscoped(w.repo, o.fact.provider, o.fact.externalId.value) == Some(s)
    requires s.id in w.repo.sources.rows && w.repo.sources.rows[s.id] == s && !IsOf(w.repo, s, File)
    ensures Step(w, o).1 == Raised(ResourceTypeMismatch)
  {
    assert CurrentBlob(o.fact, s, w.repo) == Err(ResourceTypeMismatch);
  }

  lemma Contents(w: World, o: Observed)
    requires Sound(w) && w.repo == EMPTY_REPO && Step(w, o).1.Done? && NamesResource(o.fact)
    requires o.fact.kind == MessageKind && ContentOf(o).Some?
    ensures HoldsJust(Step(w, o).0.repo, w.nextId, o, ContentOf(o).value)
  {
    StepHasEffect(w, o);
    EvidenceIsContent(w, o);
    var s := DoneFactIsUpheld(w, o);
    var eff := EffectOf(o, w.repo, w.nextId);
    hide EffectOf, Step;
    assert !eff.NoChange?;
    NothingFound(w.repo, Deciding(o, w.repo, w.nextId));
    EffectForm(eff, w.repo, Step(w, o).0.repo, Deciding(o, w.repo, w.nextId), w.nextId);
  }

  /** From an empty store: a message, a file with the same content, and the file's
      fact once more, which raises. The first two are done. */
  lemma FileLikeAMessage(w: World, m: Observed, f: Observed)
    requires Sound(w) && w.repo == EMPTY_REPO && NamesResource(m.fact) && NamesResource(f.fact)
    requires m.fact.kind == MessageKind && f.fact.kind == FileKind && m.fact.externalId != f.fact.externalId
    requires m.fact.contentHash.None? && m.fact.contentLength.None? && f.fact.contentHash.None? && f.fact.contentLength.None?
    requires m.body.Bytes? && f.body == m.body && IsBodyOf(m.fact, m.body.evidence) && IsBodyOf(f.fact, m.body.evidence)
    ensures Step(w, m).1.Done? && Step(Step(w, m).0, f).1.Done?
    ensures Step(Step(Step(w, m).0, f).0, f).1 == Raised(ResourceTypeMismatch)
  {
    EmptyIsSound(w);
    NewFactIsDone(w, m);
    StepKeeps(w, m);
    Contents(w, m);
    hide Step, IsBodyOf, Invariant, Keyed, Unused, NamesResource, Kept;
    FileAfterMessage(Step(w, m).0, w.nextId, m, f);
  }

  /** A store that holds just that message. */
  ghost predicate HoldsJust(r: Repo, n: Id, m: Observed, e: Evidence) {
    && r.assets.rows == map[n := Asset(n, Message)]
    && r.blobs.rows.Keys == {n + 1} && r.blobs.rows[n + 1].assetId == Some(n)
    && r.blobs.rows[n + 1].hash == Some(e.sha256) && r.blobs.rows[n + 1].size == Some(e.byteLength)
    && r.sources.rows.Keys == {n + 2} && r.sources.rows[n + 2].externalId == m.fact.externalId
  }

  lemma FileAfterMessage(w: World, n: Id, m: Observed, f: Observed)
    requires Invariant(w) && NamesResource(f.fact) && f.fact.kind == FileKind && f.fact.externalId != m.fact.externalId
    requires f.fact.contentHash.None? && f.fact.contentLength.None? && f.body.Bytes? && IsBodyOf(f.fact, f.body.evidence)
    requires HoldsJust(w.repo, n, m, f.body.evidence)
    ensures Step(w, f).1.Done? && Step(Step(w, f).0, f).1 == Raised(ResourceTypeMismatch)
  {
    SharesContent(w, n, m, f);
    hide Borrows, Step, IsBodyOf;
    NewFactIsDone(w, f);
    hide Invariant, NamesResource;
    BorrowedIsRefused(w, f, [], f);
  }

  lemma SharesContent(w: World, n: Id, m: Observed, f: Observed)
    requires Sound(w) && f.fact.kind == FileKind && f.fact.externalId.Some? && f.fact.externalId != m.fact.externalId
    requires ContentOf(f).Some? && HoldsJust(w.repo, n, m, ContentOf(f).value)
    ensures Borrows(w.repo, f)
  {
    FoundBlob(w.repo, ContentOf(f).value.sha256);
  }

  // ----- A whole full sync ---------------------------------------------------------

  ghost predicate MirrorFound(r: Repo, f: Fact) {
    && f.externalId.Some? && FindUnscoped(r, f.provider, f.externalId.value).Some?
    && Mirrors(FindUnscoped(r, f.provider, f.externalId.value).value, f)
  }

  lemma StepMirrors(w: World, o: Observed)
    requires Invariant(w) && Step(w, o).1.Done? && NamesResource(o.fact)
    ensures MirrorFound(Step(w, o).0.repo, o.fact)
  {
    var s := DoneFactIsUpheld(w, o);
    StepKeeps(w, o);
    hide Step;
    NothingFound(Step(w, o).0.repo, o.fact);
    FoundSource(Step(w, o).0.repo, o.fact.provider, o.fact.externalId.value);
  }

  lemma ViewKeepsMirror(r: Repo, r': Repo, f: Fact)
    requires SameView(r, r', f) && MirrorFound(r, f)
    ensures MirrorFound(r', f)
  {
    hide Mirrors;
  }

  lemma MirrorStored(r: Repo, f: Fact)
    requires Keyed(r) && MirrorFound(r, f)
    ensures exists k :: k in r.sources.rows && Mirrors(r.sources.rows[k], f)
  {
    FoundSource(r, f.provider, f.externalId.value);
  }

  lemma {:induction false} ScanMirrors(w: World, p: string, items: seq<Observed>, o: Observed)
    requires Invariant(w) && DistinctIds(items) && o in items && NamesResource(o.fact)
    requires Scan(w, p, items).raised.None? && Scan(w, p, items).disappeared == 0
    ensures MirrorFound(Scan(w, p, items).w.repo, o.fact)
    decreases |items|
  {
    hide Step, SameView, MirrorFound, NamesResource, Mirrors, References, UniqueSources, UniqueBlobs, Kept, Keyed, Unused;
    var w' := Step(w, items[0]).0;
    StepKeeps(w, items[0]);
    ScanTail(w, p, items);
    RestDistinct(items);
    hide Scan, DistinctIds;
    if items[0] == o {
      StepMirrors(w, o);
      ResourceNamed(o.fact);
      RestElsewhere(w, p, items);
      ScanElsewhere(w', p, items[1..], o.fact);
      ViewKeepsMirror(w'.repo, Scan(w, p, items).w.repo, o.fact);
    } else {
      ScanMirrors(w', p, items[1..], o);
    }
  }

  /** After a normal full sync every file or message it was told of is active and
      says what its fact says. */
  lemma FullSyncMirrors(w: World, b: Batch, o: Observed)
    requires b.mode.FullAuthoritative? && b.tombstones == [] && RunBatch(w, b).1 == Completed
    requires Invariant(w) && DistinctIds(b.items) && o in b.items && NamesResource(o.fact)
    ensures exists k :: k in RunBatch(w, b).0.repo.sources.rows && Mirrors(RunBatch(w, b).0.repo.sources.rows[k], o.fact)
  {
    hide Scan, SameView, MirrorFound, NamesResource, Mirrors, References, UniqueSources, UniqueBlobs, Kept, Keyed, Unused, Reconcile;
    ResourceNamed(o.fact);
    var missing := FullRunTail(w, b);
    RunKeeps(w, b);
    TailElsewhere(w, b, o);
    hide RunBatch;
    ScanMirrors(w, b.provider, b.items, o);
    ViewKeepsMirror(Scan(w, b.provider, b.items).w.repo, RunBatch(w, b).0.repo, o.fact);
    MirrorStored(RunBatch(w, b).0.repo, o.fact);
  }

  // ----- Tombstones ---------------------------------------------------------------------

  lemma {:induction false} TargetsInclude(r: Repo, provider: string, tombstones: seq<Tombstone>, t: Tombstone)
    requires TombstoneTargets(r, provider, tombstones).Ok? && t in tombstones
    ensures var found := FindUnscoped(r, t.provider, t.externalId);
      found.Some? && found.value.isActive ==> found.value in TombstoneTargets(r, provider, tombstones).value
    decreases |tombstones|
  {
    if tombstones[0] != t {
      TargetsInclude(r, provider, tombstones[1..], t);
    }
  }

  /** After a completed run, full or incremental, nothing a tombstone names is active. */
  lemma TombstonesAreHeeded(w: World, b: Batch, t: Tombstone, k: Id)
    requires Invariant(w) && RunBatch(w, b).1 == Completed && t in b.tombstones
    requires k in RunBatch(w, b).0.repo.sources.rows
    requires RunBatch(w, b).0.repo.sources.rows[k].scope.None? && RunBatch(w, b).0.repo.sources.rows[k].provider == t.provider
    requires RunBatch(w, b).0.repo.sources.rows[k].externalId == Some(t.externalId)
    ensures !RunBatch(w, b).0.repo.sources.rows[k].isActive
  {
    var r0 := Scan(w, b.provider, b.items).w.repo;
    ScanKeeps(w, b.provider, b.items);
    var targets, r1, missing := CompletedRun(w, b);
    TargetsInclude(r0, b.provider, b.tombstones, t);
    hide RunBatch, Scan, TombstoneTargets;
    assert k in r0.sources.rows && IsUnscoped(r0.sources.rows[k], t.provider, t.externalId);
    FoundSource(r0, t.provider, t.externalId);
    assert r0.sources.First(UnscopedKey(t.provider, t.externalId)) == Some(r0.sources.rows[k]);
    assert r0.sources.rows[k].isActive ==> k in Ids(targets);
  }

  // ----- When a body is read --------------------------------------------------------------

  /** The content of a known fact is read exactly if its version tag is not the stored one,
      an empty tag counting as none; or it names a size that is not the blob's; or the
      source had a size and it is another now. */
  lemma ReadExactlyWhen(o: Observed, r: Repo, n: Id, s: Source, b: Blob)
    requires NamesResource(o.fact) && Owns(r, o.fact, s, b)
    requires o.fact.contentHash.None? && o.fact.contentLength.None?
    requires o.fact.size == NoSize || (o.fact.size.IntegerSize? && 0 <= o.fact.size.n < 0x8000_0000_0000_0000)
    ensures
      var size: Option<int> := if o.fact.size.IntegerSize? then Some(o.fact.size.n) else None;
      NeedsContent(o, r, n) <==>
        (s.versionTag != (if o.fact.versionTag == Some("") then None else o.fact.versionTag)
         || (size.Some? && b.size != size) || (s.providerSize.Some? && s.providerSize != size))
  {
    MatchOwned(r, o.fact, n, s, b);
    assert GetContentEvidence(o.fact) == Ok(None);
    assert CONTENT_REQUIREMENTS * {} == {} && ContentEvidence in CONTENT_REQUIREMENTS * {ContentEvidence};
    hide Match, MatchVerifiedContent, GetContentEvidence, Owns;
  }

  // ----- When a run completes ----------------------------------------------------------------

  /** Each fact is of the provider, and is done in the world the facts before it left. */
  predicate AllDone(w: World, provider: string, items: seq<Observed>)
    decreases |items|
  {
    items == []
    || (items[0].fact.provider == provider && Step(w, items[0]).1 == Done && AllDone(Step(w, items[0]).0, provider, items[1..]))
  }

  lemma {:induction false} ScannedExactlyWhen(w: World, provider: string, items: seq<Observed>)
    ensures Scan(w, provider, items).raised.None? && Scan(w, provider, items).disappeared == 0 <==> AllDone(w, provider, items)
    decreases |items|
  {
    if items != [] {
      ScannedExactlyWhen(Step(w, items[0]).0, provider, items[1..]);
      hide Step;
    }
  }

  lemma {:induction false} TargetsExactlyWhen(r: Repo, provider: string, tombstones: seq<Tombstone>)
    ensures TombstoneTargets(r, provider, tombstones).Ok? <==>
      forall t :: t in tombstones ==> t.provider == provider && FindSource(r, t.provider, t.externalId).Ok?
    decreases |tombstones|
  {
    hide FindSource;
    if tombstones != [] {
      TargetsExactlyWhen(r, provider, tombstones[1..]);
      assert forall t :: t in tombstones <==> t == tombstones[0] || t in tombstones[1..];
    }
  }

  /** A run completes exactly when every fact was done, the iteration reached its end, and
      every tombstone is of the provider and names no source ambiguously. */
  lemma CompletesExactlyWhen(w: World, b: Batch)
    requires Sound(w)
    ensures RunBatch(w, b).1 == Completed <==>
      (AllDone(w, b.provider, b.items) && b.interruption.None?
       && forall t :: t in b.tombstones ==>
            t.provider == b.provider && FindSource(Scan(w, b.provider, b.items).w.repo, t.provider, t.externalId).Ok?)
  {
    var s := Scan(w, b.provider, b.items);
    ScannedExactlyWhen(w, b.provider, b.items);
    TargetsExactlyWhen(s.w.repo, b.provider, b.tombstones);
    ScanKeeps(w, b.provider, b.items);
    hide Scan, AllDone, TombstoneTargets, FindSource, Sound, Kept, Invariant, Reconcile;
    ReconcilesExactlyWhen(s.w, b, s.seen);
  }

  lemma ReconcilesExactlyWhen(w: World, b: Batch, seen: set<string>)
    requires Sound(w)
    ensures Reconcile(w, b, seen).1 == Completed <==> TombstoneTargets(w.repo, b.provider, b.tombstones).Ok?
  {
    hide DeactivateAll, TombstoneTargets, TurnedOff, Unused, Kept, ActiveSources, References, UniqueSources, UniqueBlobs;
    TargetsAreStored(w.repo, b.provider, b.tombstones);
    if TombstoneTargets(w.repo, b.provider, b.tombstones).Ok? {
      var targets := TombstoneTargets(w.repo, b.provider, b.tombstones).value;
      DeactivateAllKeeps(w, targets);
      var w1 := DeactivateAll(w, targets).0;
      ActiveAreStored(w1.repo, b.provider);
      hide Keyed;
      DeactivateAllKeeps(w1, Unseen(ActiveSources(w1.repo, b.provider), seen));
    }
  }
}
