/** What one executed decision can do to the world: the five effects, and what
    each of them keeps. */
module StepEffects {
  import opened Prelude
  import opened WorldModel
  import opened Matcher
  import opened Reconciliation

  /** Rows are stored under their own identifiers. */
  ghost predicate Keyed(r: Repo) {
    && r.assets.WellFormed() && r.blobs.WellFormed() && r.sources.WellFormed()
    && (forall k :: k in r.assets.rows ==> r.assets.rows[k].id == k)
    && (forall k :: k in r.blobs.rows ==> r.blobs.rows[k].id == k)
    && (forall k :: k in r.sources.rows ==> r.sources.rows[k].id == k)
  }

  /** Identifiers from `n` on are unused. */
  ghost predicate Unused(r: Repo, n: Id) {
    && (forall k :: k in r.assets.rows ==> k < n)
    && (forall k :: k in r.blobs.rows ==> k < n)
    && (forall k :: k in r.sources.rows ==> k < n)
  }

  ghost predicate Sound(w: World) {
    Keyed(w.repo) && Unused(w.repo, w.nextId)
  }

  /** What an executed decision did to r for the fact f. */
  datatype Effect =
    | NoChange
    | NewResource(t: ResourceType, e: Evidence)
    | NewSource(blob: Blob, e: Evidence)
    | Repoint(s: Source, blob: Blob, e: Evidence)
    | NewBlob(s: Source, current: Blob, e: Evidence)
    | Refresh(s: Source, blob: Blob)

  /** The source a fact finds, with its blob and asset stored and of its kind. */
  ghost predicate Owns(r: Repo, f: Fact, s: Source, b: Blob) {
    && f.externalId.Some?
    && FindUnscoped(r, f.provider, f.externalId.value) == Some(s)
    && CurrentBlob(f, s, r) == Ok(b)
  }

  ghost predicate Describes(eff: Effect, r: Repo, r': Repo, f: Fact, next: Id) {
    match eff
    case NoChange => r' == r
    case NewResource(t, e) =>
      && f.externalId.Some? && FindUnscoped(r, f.provider, f.externalId.value).None?
      && GetContentEvidence(f) == Ok(Some(e)) && KindOf(t) == f.kind
      && (t.File? ==> FindBlobByHash(r, e.sha256).None?)
      && r'.assets == r.assets.Put(next, Asset(next, t))
      && r'.blobs == r.blobs.Put(next + 1, BuildBlob(f, next + 1, next, e))
      && r'.sources == r.sources.Put(next + 2, BuildSource(f, next + 2, next + 1))
    case NewSource(b, e) =>
      && f.externalId.Some? && FindUnscoped(r, f.provider, f.externalId.value).None?
      && GetContentEvidence(f) == Ok(Some(e)) && f.kind.FileKind?
      && FindBlobByHash(r, e.sha256) == Some(b) && BlobMatches(b, e, false)
      && r' == r.(sources := r.sources.Put(next + 2, BuildSource(f, next + 2, b.id)))
    case Repoint(s, b, e) =>
      && (exists current :: Owns(r, f, s, current) && (b == current || b.assetId == current.assetId))
      && GetContentEvidence(f) == Ok(Some(e)) && BlobMatches(b, e, true)
      && b.id in r.blobs.rows && r.blobs.rows[b.id] == b
      && r' == r.(sources := r.sources.Put(s.id, UpdatedSource(s, f, Some(b.id))))
    case NewBlob(s, current, e) =>
      && Owns(r, f, s, current) && GetContentEvidence(f) == Ok(Some(e))
      && current.hash != Some(e.sha256) && FindBlobInAsset(r, e.sha256, current.assetId.value).None?
      && r'.assets == r.assets
      && r'.blobs == r.blobs.Put(next, BuildBlob(f, next, current.assetId.value, e))
      && r'.sources == r.sources.Put(s.id, UpdatedSource(s, f, Some(next)))
    case Refresh(s, b) =>
      && Owns(r, f, s, b) && GetContentEvidence(f) == Ok(None)
      && s.versionTag == ComparableTag(f) && !SameVersionNeedsEvidence(f, s, b)
      && r' == r.(sources := r.sources.Put(s.id, UpdatedSource(s, f, s.blobId)))
  }

  /** The effect is read off the decision's branch. */
  ghost function EffectOf(o: Observed, r: Repo, next: Id): Effect {
    var f := Deciding(o, r, next);
    var d := Decide(o, r, next);
    if !IsResource(f) || !d.Act? || d.d.actions == [] then NoChange
    else
      match FindUnscoped(r, f.provider, f.externalId.value)
      case None =>
        var e := GetContentEvidence(f).value.value;
        if f.kind.MessageKind? then NewResource(Message, e)
        else if FindBlobByHash(r, e.sha256).Some? then NewSource(FindBlobByHash(r, e.sha256).value, e)
        else NewResource(File, e)
      case Some(s) =>
        var b := CurrentBlob(f, s, r).value;
        if GetContentEvidence(f).value.None? then Refresh(s, b)
        else
          VerifiedEffect(s, b, GetContentEvidence(f).value.value, r)
  }

  lemma FoundSource(r: Repo, provider: string, externalId: string)
    requires Keyed(r)
    ensures var found := FindUnscoped(r, provider, externalId);
      found.Some? ==> IsUnscoped(found.value, provider, externalId)
                      && found.value.id in r.sources.rows && r.sources.rows[found.value.id] == found.value
  {
  }

  lemma ExecuteOne(r: Repo, d: Decision)
    ensures ExecuteMany(r, [d]) == ExecuteActions(r, d.actions)
  {
    var ds := [d];
    assert ds[1..] == [];
    match ExecuteActions(r, d.actions) {
      case Err(_) =>
      case Ok(r') => assert ExecuteMany(r', ds[1..]) == Ok(r');
    }
  }
  lemma ExecuteTwo(r: Repo, a: Action, b: Action)
    ensures ExecuteActions(r, []) == Ok(r)
    ensures ExecuteActions(r, [a]) == ExecuteAction(r, a)
    ensures ExecuteActions(r, [a, b]) == (match ExecuteAction(r, a) case Err(e) => Err(e) case Ok(r') => ExecuteAction(r', b))
  {
    ExecuteLast(r, a);
    var l := [a, b];
    assert l[1..] == [b];
    match ExecuteAction(r, a) {
      case Err(_) =>
      case Ok(r') => ExecuteLast(r', b); assert ExecuteActions(r, l) == ExecuteActions(r', l[1..]);
    }
  }

  lemma ExecuteLast(r: Repo, a: Action)
    ensures ExecuteActions(r, [a]) == ExecuteAction(r, a)
  {
    var l := [a];
    assert l[1..] == [];
    match ExecuteAction(r, a) {
      case Err(_) =>
      case Ok(r') => assert ExecuteActions(r', l[1..]) == Ok(r');
    }
  }

  lemma ExecuteThree(r: Repo, a: Action, b: Action, c: Action)
    ensures ExecuteActions(r, [a, b, c]) ==
      (match ExecuteAction(r, a) case Err(e) => Err(e) case Ok(r') => ExecuteActions(r', [b, c]))
  {
    var l := [a, b, c];
    assert l[1..] == [b, c];
  }

  /** Every decision on a fact is executable, and does one of the five things. */
  lemma StepHasEffect(w: World, o: Observed)
    requires Sound(w)
    ensures Decide(o, w.repo, w.nextId).Act? ==> Step(w, o).1.Done?
    ensures Step(w, o).1.Done? ==>
      Describes(EffectOf(o, w.repo, w.nextId), w.repo, Step(w, o).0.repo, Deciding(o, w.repo, w.nextId), w.nextId)
    ensures !Step(w, o).1.Done? ==> Step(w, o).0 == w
  {
    var r, n := w.repo, w.nextId;
    var f := Deciding(o, r, n);
    if Decide(o, r, n).Act? {
      var d := Decide(o, r, n).d;
      ExecuteOne(r, d);
      if IsResource(f) {
        FoundSource(r, f.provider, f.externalId.value);
        if d.actions == [] {
        } else if FindUnscoped(r, f.provider, f.externalId.value).None? {
          NewSourceEffect(f, r, n);
        } else {
          ExistingSourceEffect(f, r, n);
        }
      }
    }
  }

  lemma NewSourceEffect(f: Fact, r: Repo, n: Id)
    requires Keyed(r) && Unused(r, n) && IsResource(f)
    requires Match(f, r, n).Ok? && Match(f, r, n).value.actions != []
    requires FindUnscoped(r, f.provider, f.externalId.value).None?
    ensures GetContentEvidence(f).Ok? && GetContentEvidence(f).value.Some?
    ensures ExecuteActions(r, Match(f, r, n).value.actions).Ok?
    ensures var e := GetContentEvidence(f).value.value; var r' := ExecuteActions(r, Match(f, r, n).value.actions).value;
      Describes(if f.kind.MessageKind? then NewResource(Message, e)
                else if FindBlobByHash(r, e.sha256).Some? then NewSource(FindBlobByHash(r, e.sha256).value, e)
                else NewResource(File, e), r, r', f, n)
  {
    var d := Match(f, r, n).value;
    var e := GetContentEvidence(f).value.value;
    if !f.kind.MessageKind? && FindBlobByHash(r, e.sha256).Some? {
      ExecuteLast(r, d.actions[0]);
    } else {
      ExecuteThree(r, d.actions[0], d.actions[1], d.actions[2]);
      ExecuteTwo(ExecuteAction(r, d.actions[0]).value, d.actions[1], d.actions[2]);
    }
  }

  /** The effect of the branch that has verified content for an existing source. */
  ghost function VerifiedEffect(s: Source, b: Blob, e: Evidence, r: Repo): Effect
    requires b.assetId.Some?
  {
    if b.hash == Some(e.sha256) then Repoint(s, b, e)
    else
      var other := FindBlobInAsset(r, e.sha256, b.assetId.value);
      if other.Some? then Repoint(s, other.value, e) else NewBlob(s, b, e)
  }

  lemma VerifiedContentEffect(f: Fact, s: Source, b: Blob, e: Evidence, r: Repo, same: bool, n: Id)
    requires Keyed(r) && Owns(r, f, s, b) && GetContentEvidence(f) == Ok(Some(e))
    requires MatchVerifiedContent(f, s, r, b, e, same, n).Ok?
    requires MatchVerifiedContent(f, s, r, b, e, same, n).value.actions != []
    ensures
      var r' := ExecuteActions(r, MatchVerifiedContent(f, s, r, b, e, same, n).value.actions);
      r'.Ok? && Describes(VerifiedEffect(s, b, e, r), r, r'.value, f, n)
  {
    FoundSource(r, f.provider, f.externalId.value);
    var d := MatchVerifiedContent(f, s, r, b, e, same, n).value;
    if b.hash == Some(e.sha256) || FindBlobInAsset(r, e.sha256, b.assetId.value).Some? {
      ExecuteLast(r, d.actions[0]);
    } else {
      ExecuteTwo(r, d.actions[0], d.actions[1]);
    }
  }

  lemma ExistingSourceEffect(f: Fact, r: Repo, n: Id)
    requires Keyed(r) && IsResource(f)
    requires Match(f, r, n).Ok? && Match(f, r, n).value.actions != []
    requires FindUnscoped(r, f.provider, f.externalId.value).Some?
    ensures
      var s := FindUnscoped(r, f.provider, f.externalId.value).value;
      CurrentBlob(f, s, r).Ok? && GetContentEvidence(f).Ok?
    ensures
      var s := FindUnscoped(r, f.provider, f.externalId.value).value;
      var b := CurrentBlob(f, s, r).value;
      var r' := ExecuteActions(r, Match(f, r, n).value.actions);
      r'.Ok? &&
      Describes(if GetContentEvidence(f).value.None? then Refresh(s, b)
                else VerifiedEffect(s, b, GetContentEvidence(f).value.value, r), r, r'.value, f, n)
  {
    FoundSource(r, f.provider, f.externalId.value);
    var s := FindUnscoped(r, f.provider, f.externalId.value).value;
    var d := Match(f, r, n).value;
    var b := CurrentBlob(f, s, r).value;
    assert Owns(r, f, s, b);
    if GetContentEvidence(f).value.None? {
      ExecuteLast(r, d.actions[0]);
    } else {
      VerifiedContentEffect(f, s, b, GetContentEvidence(f).value.value, r, s.versionTag == ComparableTag(f), n);
    }
  }
}
