/** The identity matcher: what one provider fact asks of the world model. Every
    decision is a value computed from the fact and the repository. */
module Matcher {
  import opened Prelude
  import opened WorldModel

  /** A provider's `size` attribute before validation. */
  datatype SizeAttribute = NoSize | IntegerSize(n: int) | OtherSize

  datatype Evidence = Evidence(sha256: string, byteLength: int)

  datatype Fact = Fact(
    provider: string,
    kind: Kind,
    externalId: Option<string>,
    name: Option<string>,
    path: Option<string>,
    versionTag: Option<string>,
    mimeType: Option<string>,
    size: SizeAttribute,
    contentHash: Option<string>,
    contentLength: Option<int>,
    raw: Raw)
  {
    /** What the engine writes into the fact's attributes after one body read. */
    function WithEvidence(e: Evidence): Fact {
      this.(contentHash := Some(e.sha256),
            contentLength := Some(e.byteLength),
            versionTag := if kind.MessageKind? then Some(e.sha256) else versionTag)
    }
  }

  // ----- Validation --------------------------------------------------------

  function InvalidReason(f: Fact): Option<Reason> {
    if IsBlank(f.provider) then Some(InvalidFactMissingProvider)
    else if f.externalId.None? || f.externalId.value == "" then Some(InvalidFactMissingExternalId)
    else if f.kind.OtherKind? then Some(InvalidFactKind)
    else None
  }

  /** A fact the world model keeps a source for. */
  predicate IsResource(f: Fact) {
    InvalidReason(f).None? && !f.kind.FolderKind?
  }

  predicate ValidSize(size: SizeAttribute) {
    match size
    case NoSize => true
    case IntegerSize(n) => 0 <= n <= BIGINT_MAX
    case OtherSize => false
  }

  function ProviderSize(f: Fact): Option<int> {
    if f.size.IntegerSize? then Some(f.size.n) else None
  }

  predicate IsHexDigit(c: char) {
    '0' <= c <= '9' || 'a' <= c <= 'f' || 'A' <= c <= 'F'
  }

  predicate ValidEvidence(sha256: string, byteLength: int) {
    |sha256| == 64 && (forall i :: 0 <= i < 64 ==> IsHexDigit(sha256[i])) && byteLength >= 0
  }

  function GetContentEvidence(f: Fact): Result<Option<Evidence>, Error> {
    if f.contentHash.None? && f.contentLength.None? then Ok(None)
    else if f.contentHash.None? || f.contentLength.None? then Err(ContentEvidencePolicy)
    else if !ValidEvidence(f.contentHash.value, f.contentLength.value) then Err(ContentEvidencePolicy)
    else if f.contentLength.value > BIGINT_MAX then Err(EvidenceOverflow)
    else if ProviderSize(f).Some? && ProviderSize(f).value != f.contentLength.value then Err(ProviderSizeMismatch)
    else Ok(Some(Evidence(f.contentHash.value, f.contentLength.value)))
  }

  predicate BlobMatches(b: Blob, e: Evidence, allowUnknownSize: bool) {
    b.hash == Some(e.sha256) && (b.size == Some(e.byteLength) || (allowUnknownSize && b.size.None?))
  }

  /** An empty version tag is no version tag, when comparing. */
  function ComparableTag(f: Fact): Option<string> {
    if f.versionTag == Some("") then None else f.versionTag
  }

  // ----- Values built from a fact ------------------------------------------

  function BuildSource(f: Fact, id: Id, blobId: Id): Source {
    Source(id, Some(blobId), f.provider, f.externalId, None, f.path, f.name, f.versionTag, f.mimeType,
           ProviderSize(f), f.raw, true, None)
  }

  function UpdatedSource(s: Source, f: Fact, blobId: Option<Id>): Source {
    s.(isActive := true, deletedAt := None, blobId := blobId, path := f.path, name := f.name,
       versionTag := f.versionTag, mimeType := f.mimeType, providerSize := ProviderSize(f), metadata := f.raw)
  }

  function BuildBlob(f: Fact, id: Id, assetId: Id, e: Evidence): Blob {
    Blob(id, Some(assetId), Some(e.sha256), Some(e.byteLength), f.mimeType)
  }

  predicate Unchanged(f: Fact, s: Source) {
    && s.isActive
    && s.deletedAt.None?
    && s.path == f.path
    && s.name == f.name
    && s.versionTag == f.versionTag
    && s.mimeType == f.mimeType
    && s.providerSize == ProviderSize(f)
    && s.metadata == f.raw
  }

  // ----- Decisions -----------------------------------------------------------

  function NoAction(reason: Reason): Decision { Decision([], {}, reason) }

  function EvidenceRequired(): Decision { Decision([], {ContentEvidence}, ContentEvidenceRequired) }

  function NewResource(f: Fact, e: Evidence, next: Id, t: ResourceType, reason: Reason): Decision {
    Decision([CreatingAsset(Asset(next, t)),
              CreatingBlob(BuildBlob(f, next + 1, next, e)),
              CreatingSource(BuildSource(f, next + 2, next + 1))], {}, reason)
  }

  function MatchNewSource(f: Fact, r: Repo, next: Id): Result<Decision, Error> {
    match GetContentEvidence(f)
    case Err(e) => Err(e)
    case Ok(None) => Ok(EvidenceRequired())
    case Ok(Some(e)) =>
      if f.kind.MessageKind? then Ok(NewResource(f, e, next, Message, NewMessageSource))
      else
        var existing := FindBlobByHash(r, e.sha256);
        if existing.Some? then
          if BlobMatches(existing.value, e, false)
          then Ok(Decision([CreatingSource(BuildSource(f, next + 2, existing.value.id))], {}, NewSourceExistingBlob))
          else Err(BlobEvidenceMismatch)
        else Ok(NewResource(f, e, next, File, NewSourceNewBlob))
  }

  /** The source's blob, when the blob and its asset are stored and the asset's
      type is the fact's kind. */
  function CurrentBlob(f: Fact, s: Source, r: Repo): Result<Blob, Error> {
    if s.blobId.None? then Err(SourceHasNoBlob)
    else if s.blobId.value !in r.blobs.rows then Err(ResourceNotFound)
    else
      var b := r.blobs.rows[s.blobId.value];
      if b.assetId.None? || b.assetId.value !in r.assets.rows then Err(ResourceNotFound)
      else if KindOf(r.assets.rows[b.assetId.value].resourceType) != f.kind then Err(ResourceTypeMismatch)
      else Ok(b)
  }

  predicate SameVersionNeedsEvidence(f: Fact, s: Source, b: Blob) {
    var incoming := ProviderSize(f);
    if s.providerSize != incoming then !(s.providerSize.None? && incoming.Some? && b.size == incoming)
    else incoming.Some? && b.size != incoming
  }

  function MatchVerifiedContent(
    f: Fact, s: Source, r: Repo, b: Blob, e: Evidence, sameVersion: bool, next: Id): Result<Decision, Error>
  {
    if b.hash == Some(e.sha256) then
      if !BlobMatches(b, e, true) then Err(BlobEvidenceMismatch)
      else if sameVersion && Unchanged(f, s) then Ok(NoAction(SourceContentVerifiedUnchanged))
      else
        Ok(Decision([UpdatingSource(UpdatedSource(s, f, Some(b.id)))], {},
          if sameVersion && SameVersionNeedsEvidence(f, s, b) then SourceContentVerifiedUnchanged
          else if sameVersion then SourceMetadataChanged
          else SourceReturnedToExistingBlobInAsset))
    else if b.assetId.None? then Err(ContentEvidencePolicy)
    else
      var other := FindBlobInAsset(r, e.sha256, b.assetId.value);
      if other.Some? then
        if !BlobMatches(other.value, e, true) then Err(BlobEvidenceMismatch)
        else
          Ok(Decision([UpdatingSource(UpdatedSource(s, f, Some(other.value.id)))], {},
            if sameVersion then SourceContentChangedSameVersionReusedBlob
            else SourceReturnedToExistingBlobInAsset))
      else
        Ok(Decision([CreatingBlob(BuildBlob(f, next, b.assetId.value, e)),
                     UpdatingSource(UpdatedSource(s, f, Some(next)))], {},
          if sameVersion then SourceContentChangedSameVersionNewBlob else NewBlobForExistingAsset))
  }

  function MatchSameVersion(f: Fact, s: Source, r: Repo, b: Blob, next: Id): Result<Decision, Error> {
    match GetContentEvidence(f)
    case Err(e) => Err(e)
    case Ok(Some(e)) => MatchVerifiedContent(f, s, r, b, e, true, next)
    case Ok(None) =>
      if SameVersionNeedsEvidence(f, s, b) then Ok(EvidenceRequired())
      else if Unchanged(f, s) then Ok(NoAction(SourceUnchanged))
      else Ok(Decision([UpdatingSource(UpdatedSource(s, f, s.blobId))], {}, SourceMetadataChanged))
  }

  function MatchChangedVersion(f: Fact, s: Source, r: Repo, b: Blob, next: Id): Result<Decision, Error> {
    match GetContentEvidence(f)
    case Err(e) => Err(e)
    case Ok(None) => Ok(EvidenceRequired())
    case Ok(Some(e)) => MatchVerifiedContent(f, s, r, b, e, false, next)
  }

  function MatchExistingSource(f: Fact, s: Source, r: Repo, b: Blob, next: Id): Result<Decision, Error> {
    if s.versionTag == ComparableTag(f) then MatchSameVersion(f, s, r, b, next)
    else MatchChangedVersion(f, s, r, b, next)
  }

  /** The decision for one fact; `next` starts a supply of unused identifiers. */
  function Match(f: Fact, r: Repo, next: Id): Result<Decision, Error> {
    if InvalidReason(f).Some? then Ok(NoAction(InvalidReason(f).value))
    else if !ValidSize(f.size) then Err(InvalidProviderSize)
    else if f.kind.FolderKind? then Ok(NoAction(FolderIgnored))
    else
      match FindSource(r, f.provider, f.externalId.value)
      case Err(e) => Err(e)
      case Ok(None) => MatchNewSource(f, r, next)
      case Ok(Some(s)) =>
        match CurrentBlob(f, s, r)
        case Err(e) => Err(e)
        case Ok(b) => MatchExistingSource(f, s, r, b, next)
  }
}
