/** Running the same full sync twice. The second run changes nothing exactly when
    no fact with a blank version tag was taken over unread from a source that had
    no tag and whose blob its content does not confirm. */
module Idempotence {
  import opened Prelude
  import opened WorldModel
  import opened Matcher
  import opened Reconciliation
  import opened StepEffects

  // ----- Content ---------------------------------------------------------------

  /** The content behind a fact: what its attributes already say, else what one
      read of it yields. */
  function ContentOf(o: Observed): Option<Evidence> {
    if o.fact.contentHash.Some? && o.fact.contentLength.Some?
    then Some(Evidence(o.fact.contentHash.value, o.fact.contentLength.value))
    else if o.fact.contentHash.None? && o.fact.contentLength.None? && o.body.Bytes? then Some(o.body.evidence)
    else None
  }

  /** Equal hashes come from contents of equal length. */
  ghost predicate HashFixesLength(r: Repo, items: seq<Observed>, length: string -> int) {
    && (forall k :: k in r.blobs.rows && r.blobs.rows[k].hash.Some? && r.blobs.rows[k].size.Some? ==>
          r.blobs.rows[k].size.value == length(r.blobs.rows[k].hash.value))
    && (forall o :: o in items && ContentOf(o).Some? ==>
          ContentOf(o).value.byteLength == length(ContentOf(o).value.sha256))
  }

  /** No file's content is also some message's. */
  ghost predicate FilesAreNotMessages(r: Repo, items: seq<Observed>) {
    && (forall o :: o in items && o.fact.kind.FileKind? && ContentOf(o).Some? ==>
          OnlyFilesHold(r, ContentOf(o).value.sha256))
    && (forall o, m :: o in items && m in items ==> !SharedContent(o, m))
  }

  ghost predicate OnlyFilesHold(r: Repo, hash: string) {
    forall k :: k in r.blobs.rows && r.blobs.rows[k].hash == Some(hash) ==> HasType(r, r.blobs.rows[k], File)
  }

  predicate SharedContent(file: Observed, message: Observed) {
    && file.fact.kind.FileKind? && message.fact.kind.MessageKind?
    && ContentOf(file).Some? && ContentOf(message).Some?
    && ContentOf(file).value.sha256 == ContentOf(message).value.sha256
  }

  predicate HasType(r: Repo, b: Blob, t: ResourceType) {
    b.assetId.Some? && b.assetId.value in r.assets.rows && r.assets.rows[b.assetId.value].resourceType == t
  }

  ghost predicate DistinctIds(items: seq<Observed>) {
    forall i, j :: 0 <= i < j < |items| && IsResource(items[i].fact) && IsResource(items[j].fact) ==>
      items[i].fact.externalId != items[j].fact.externalId
  }

  // ----- Settled facts -----------------------------------------------------------

  /** The fact as the engine decides on it once its content is known. */
  function WithContent(o: Observed, e: Evidence): Fact {
    if o.fact.contentHash.Some? then o.fact else o.fact.WithEvidence(e)
  }

  ghost predicate SettledUnread(o: Observed, s: Source, b: Blob) {
    && GetContentEvidence(o.fact) == Ok(None) && Unchanged(o.fact, s)
    && s.versionTag == ComparableTag(o.fact) && !SameVersionNeedsEvidence(o.fact, s, b)
  }

  ghost predicate SettledRead(o: Observed, s: Source, b: Blob) {
    && ContentOf(o).Some? && BlobMatches(b, ContentOf(o).value, true)
    && GetContentEvidence(WithContent(o, ContentOf(o).value)) == Ok(ContentOf(o))
    && Unchanged(WithContent(o, ContentOf(o).value), s)
  }

  /** The world already says what the fact says. */
  ghost predicate Settled(r: Repo, o: Observed) {
    if IsResource(o.fact) then
      && ValidSize(o.fact.size)
      && exists s, b :: Owns(r, o.fact, s, b) && (SettledUnread(o, s, b) || SettledRead(o, s, b))
    else InvalidReason(o.fact).Some? || ValidSize(o.fact.size)
  }

  /** The content confirms the blob, and reading it leaves the tag alone. */
  predicate Confirms(o: Observed, b: Blob) {
    && o.fact.kind.FileKind? && o.body.Bytes?
    && ValidEvidence(o.body.evidence.sha256, o.body.evidence.byteLength)
    && b.hash == Some(o.body.evidence.sha256) && o.body.evidence.byteLength <= BIGINT_MAX
  }

  /** The family on which a second run differs: a blank version tag reaches a
      source that has none, nothing asks for a read, and a read would not simply
      confirm the blob. All of it can be checked before the first run. */
  ghost predicate StaleBlankTag(r: Repo, o: Observed) {
    && IsResource(o.fact) && o.fact.versionTag == Some("") && GetContentEvidence(o.fact) == Ok(None)
    && exists s, b :: Owns(r, o.fact, s, b) && s.versionTag.None?
                      && !SameVersionNeedsEvidence(o.fact, s, b) && !Confirms(o, b)
  }

  // ----- A settled fact changes nothing -------------------------------------------

  lemma MatchOwned(r: Repo, f: Fact, n: Id, s: Source, b: Blob)
    requires IsResource(f) && ValidSize(f.size) && Owns(r, f, s, b)
    ensures Match(f, r, n) == MatchExistingSource(f, s, r, b, n)
  {
    hide MatchExistingSource;
  }

  lemma SettledVerified(r: Repo, f: Fact, n: Id, s: Source, b: Blob, e: Evidence, same: bool)
    requires Keyed(r) && Owns(r, f, s, b) && Unchanged(f, s) && BlobMatches(b, e, true)
    ensures var m := MatchVerifiedContent(f, s, r, b, e, same, n);
      m.Ok? && m.value.requirements == {} && (m.value.actions == [] || m.value.actions == [UpdatingSource(s)])
  {
    assert UpdatedSource(s, f, Some(b.id)) == s;
  }

  /** A matched fact whose decision is final as it stands. */
  lemma DecideFinal(r: Repo, o: Observed, n: Id)
    requires Match(o.fact, r, n).Ok? && Match(o.fact, r, n).value.requirements == {}
    ensures Decide(o, r, n) == Act(Match(o.fact, r, n).value)
  {
    hide Match;
  }

  lemma DecideAfterRead(r: Repo, o: Observed, n: Id)
    requires Match(o.fact, r, n) == Ok(EvidenceRequired()) && o.body.Bytes?
    requires var m := Match(o.fact.WithEvidence(o.body.evidence), r, n); m.Ok? && m.value.requirements == {}
    ensures Decide(o, r, n) == Act(Match(o.fact.WithEvidence(o.body.evidence), r, n).value)
  {
    hide Match;
    assert ContentEvidence in CONTENT_REQUIREMENTS * {ContentEvidence};
  }

  lemma SettledDecision(r: Repo, o: Observed, n: Id, s: Source, b: Blob)
    requires Keyed(r) && IsResource(o.fact) && ValidSize(o.fact.size)
    requires Owns(r, o.fact, s, b) && (SettledUnread(o, s, b) || SettledRead(o, s, b))
    ensures Decide(o, r, n).Act?
    ensures Decide(o, r, n).d.actions == [] || Decide(o, r, n).d.actions == [UpdatingSource(s)]
  {
    var f := o.fact;
    MatchOwned(r, f, n, s, b);
    hide Match, MatchVerifiedContent, Decide;
    if SettledUnread(o, s, b) {
      DecideFinal(r, o, n);
    } else if f.contentHash.Some? {
      SettledVerified(r, f, n, s, b, ContentOf(o).value, s.versionTag == ComparableTag(f));
      DecideFinal(r, o, n);
    } else {
      var e := ContentOf(o).value;
      var f' := f.WithEvidence(e);
      assert Owns(r, f', s, b);
      MatchOwned(r, f', n, s, b);
      SettledVerified(r, f', n, s, b, e, s.versionTag == ComparableTag(f'));
      if s.versionTag == ComparableTag(f) && !SameVersionNeedsEvidence(f, s, b) {
        DecideFinal(r, o, n);
      } else {
        DecideAfterRead(r, o, n);
      }
    }
  }

  lemma SettledMatch(r: Repo, o: Observed, n: Id)
    requires Keyed(r) && Settled(r, o)
    ensures Decide(o, r, n).Act?
    ensures ExecuteActions(r, Decide(o, r, n).d.actions) == Ok(r)
  {
    if IsResource(o.fact) {
      var s, b :| Owns(r, o.fact, s, b) && (SettledUnread(o, s, b) || SettledRead(o, s, b));
      FoundSource(r, o.fact.provider, o.fact.externalId.value);
      SettledDecision(r, o, n, s, b);
      hide Decide, ExecuteActions, ExecuteAction;
      RewriteSource(r, s);
      ExecuteTwo(r, UpdatingSource(s), UpdatingSource(s));
    }
  }

  lemma RewriteSource(r: Repo, s: Source)
    requires s.id in r.sources.rows && r.sources.rows[s.id] == s
    ensures ExecuteAction(r, UpdatingSource(s)) == Ok(r)
  {
    assert r.sources.rows[s.id := s] == r.sources.rows;
  }

  lemma SettledStep(w: World, o: Observed)
    requires Keyed(w.repo) && Settled(w.repo, o)
    ensures Step(w, o).1.Done? && Step(w, o).0.repo == w.repo
  {
    SettledMatch(w.repo, o, w.nextId);
    hide Decide;
    ExecuteOne(w.repo, Decide(o, w.repo, w.nextId).d);
  }

  lemma {:induction false} SettledScan(w: World, p: string, items: seq<Observed>)
    requires Keyed(w.repo) && forall o :: o in items ==> o.fact.provider == p && Settled(w.repo, o)
    ensures var s := Scan(w, p, items);
      s.raised.None? && s.disappeared == 0 && s.w.repo == w.repo
    decreases |items|
  {
    if items != [] {
      SettledStep(w, items[0]);
      SettledScan(Step(w, items[0]).0, p, items[1..]);
    }
  }
}
