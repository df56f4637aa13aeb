/** Assets, blobs and sources, the decisions that change them, and the tables
    that hold them. A Python dictionary is a Table: rows by identifier, and the
    insertion order that decides which row a scan meets first. */
module WorldModel {
  import opened Prelude

  type Id = nat

  const BIGINT_MAX := 9_223_372_036_854_775_807

  datatype ResourceType = File | Message

  /** A provider fact's `kind` text. */
  datatype Kind = FileKind | FolderKind | MessageKind | OtherKind(text: string)

  function KindOf(t: ResourceType): Kind {
    match t
    case File => FileKind
    case Message => MessageKind
  }

  datatype Asset = Asset(id: Id, resourceType: ResourceType)

  datatype Blob = Blob(
    id: Id,
    assetId: Option<Id>,
    hash: Option<string>,
    size: Option<int>,
    mimeType: Option<string>)

  type Raw = map<string, string>

  datatype Source = Source(
    id: Id,
    blobId: Option<Id>,
    provider: string,
    externalId: Option<string>,
    scope: Option<string>,
    path: Option<string>,
    name: Option<string>,
    versionTag: Option<string>,
    mimeType: Option<string>,
    providerSize: Option<int>,
    metadata: Raw,
    isActive: bool,
    deletedAt: Option<int>)

  datatype Table<V(!new)> = Table(order: seq<Id>, rows: map<Id, V>)
  {
    /** The order lists every row exactly once. */
    ghost predicate WellFormed() {
      && (forall k :: k in order <==> k in rows)
      && (forall i, j :: 0 <= i < j < |order| ==> order[i] != order[j])
    }

    /** `table[id] = row`: an existing key keeps its place. */
    function Put(id: Id, row: V): Table<V> {
      Table(if id in rows then order else order + [id], rows[id := row])
    }

    /** The first row, in insertion order, that satisfies p. */
    function First(p: V -> bool): (r: Option<V>)
      ensures r.Some? ==> p(r.value) && exists k :: k in order && k in rows && rows[k] == r.value
      ensures r.None? ==> forall k :: k in order && k in rows ==> !p(rows[k])
    {
      FirstOf(order, rows, p)
    }

    /** All rows that satisfy p, in insertion order. */
    function Select(p: V -> bool): (r: seq<V>)
      ensures forall v :: v in r <==> exists k :: k in order && k in rows && rows[k] == v && p(v)
    {
      SelectOf(order, rows, p)
    }
  }

  function FirstOf<V(!new)>(order: seq<Id>, rows: map<Id, V>, p: V -> bool): (r: Option<V>)
    ensures r.Some? ==> p(r.value) && exists k :: k in order && k in rows && rows[k] == r.value
    ensures r.None? ==> forall k :: k in order && k in rows ==> !p(rows[k])
  {
    if order == [] then None
    else if order[0] in rows && p(rows[order[0]]) then Some(rows[order[0]])
    else FirstOf(order[1..], rows, p)
  }

  function SelectOf<V(!new)>(order: seq<Id>, rows: map<Id, V>, p: V -> bool): (r: seq<V>)
    ensures forall v :: v in r <==> exists k :: k in order && k in rows && rows[k] == v && p(v)
  {
    if order == [] then []
    else
      var rest := SelectOf(order[1..], rows, p);
      if order[0] in rows && p(rows[order[0]]) then [rows[order[0]]] + rest else rest
  }

  lemma PutWellFormed<V(!new)>(t: Table<V>, id: Id, row: V)
    requires t.WellFormed()
    ensures t.Put(id, row).WellFormed()
  {
  }

  /** What Put does to a first-match scan when the row it changes does not match
      before or after: nothing. */
  lemma {:induction false} FirstSkips<V(!new)>(order: seq<Id>, rows: map<Id, V>, rows': map<Id, V>, p: V -> bool)
    requires forall k :: k in order && k in rows ==> k in rows' && (rows'[k] == rows[k] || (!p(rows[k]) && !p(rows'[k])))
    requires forall k :: k in order && k in rows' ==> k in rows || !p(rows'[k])
    ensures FirstOf(order, rows', p) == FirstOf(order, rows, p)
  {
    if order != [] {
      if order[0] in rows && p(rows[order[0]]) {
        assert order[0] in order;
        assert rows'[order[0]] == rows[order[0]];
      } else {
        assert order[0] in order;
        FirstSkips(order[1..], rows, rows', p);
      }
    }
  }

  lemma {:induction false} FirstAppend<V(!new)>(order: seq<Id>, id: Id, rows: map<Id, V>, p: V -> bool)
    requires id in rows ==> !p(rows[id])
    ensures FirstOf(order + [id], rows, p) == FirstOf(order, rows, p)
  {
    if order == [] {
      assert (order + [id])[1..] == [];
    } else {
      assert (order + [id])[1..] == order[1..] + [id];
      FirstAppend(order[1..], id, rows, p);
    }
  }

  /** A row that does not match, before or after, is invisible to a first-match scan. */
  lemma FirstIgnores<V(!new)>(t: Table<V>, id: Id, row: V, p: V -> bool)
    requires t.WellFormed() && !p(row) && (id in t.rows ==> !p(t.rows[id]))
    ensures t.Put(id, row).First(p) == t.First(p)
  {
    FirstSkips(t.order, t.rows, t.rows[id := row], p);
    FirstAppend(t.order, id, t.rows[id := row], p);
  }

  datatype Repo = Repo(assets: Table<Asset>, blobs: Table<Blob>, sources: Table<Source>)

  const EMPTY_REPO := Repo(Table([], map[]), Table([], map[]), Table([], map[]))

  // ----- Decisions -------------------------------------------------------

  datatype ActionType = CreateAsset | CreateBlob | CreateSource | UpdateSource | DeactivateSource

  datatype Action = Action(kind: ActionType, asset: Option<Asset>, blob: Option<Blob>, source: Option<Source>)

  datatype RequirementType = ContentHash | ContentEvidence

  datatype Reason =
    | Unexplained
    | ContentEvidenceRequired
    | FolderIgnored
    | InvalidFactKind
    | InvalidFactMissingExternalId
    | InvalidFactMissingProvider
    | NewBlobForExistingAsset
    | NewMessageSource
    | NewSourceExistingBlob
    | NewSourceNewBlob
    | SourceContentChangedSameVersionNewBlob
    | SourceContentChangedSameVersionReusedBlob
    | SourceContentVerifiedUnchanged
    | SourceMetadataChanged
    | SourceReturnedToExistingBlobInAsset
    | SourceUnchanged

  datatype Decision = Decision(actions: seq<Action>, requirements: set<RequirementType>, reason: Reason)

  function CreatingAsset(a: Asset): Action { Action(CreateAsset, Some(a), None, None) }
  function CreatingBlob(b: Blob): Action { Action(CreateBlob, None, Some(b), None) }
  function CreatingSource(s: Source): Action { Action(CreateSource, None, None, Some(s)) }
  function UpdatingSource(s: Source): Action { Action(UpdateSource, None, None, Some(s)) }
  function DeactivatingSource(s: Source): Action { Action(DeactivateSource, None, None, Some(s)) }

  datatype Error =
    | MissingPayload(kind: ActionType)
    | SourceNotFound(id: Id)
    | AmbiguousSource
    | InvalidProviderSize
    | ContentEvidencePolicy
    | EvidenceOverflow
    | ProviderSizeMismatch
    | BlobEvidenceMismatch
    | SourceHasNoBlob
    | ResourceNotFound
    | ResourceTypeMismatch
    | MixedProviders
    | UnsatisfiedRequirements
    | ForeignTombstone
    | ScanFailed
    | InvalidCheckpoint
    | ReadFailed

  // ----- What executing a decision does -----------------------------------

  function ExecuteAction(r: Repo, a: Action): Result<Repo, Error> {
    match a.kind
    case CreateAsset =>
      if a.asset.None? then Err(MissingPayload(a.kind))
      else Ok(r.(assets := r.assets.Put(a.asset.value.id, a.asset.value)))
    case CreateBlob =>
      if a.blob.None? then Err(MissingPayload(a.kind))
      else Ok(r.(blobs := r.blobs.Put(a.blob.value.id, a.blob.value)))
    case CreateSource =>
      if a.source.None? then Err(MissingPayload(a.kind))
      else Ok(r.(sources := r.sources.Put(a.source.value.id, a.source.value)))
    case UpdateSource =>
      if a.source.None? then Err(MissingPayload(a.kind))
      else if a.source.value.id !in r.sources.rows then Err(SourceNotFound(a.source.value.id))
      else Ok(r.(sources := r.sources.Put(a.source.value.id, a.source.value)))
    case DeactivateSource =>
      if a.source.None? then Err(MissingPayload(a.kind))
      else if a.source.value.id !in r.sources.rows then Err(SourceNotFound(a.source.value.id))
      else
        var s := a.source.value;
        Ok(r.(sources := r.sources.Put(s.id, r.sources.rows[s.id].(isActive := s.isActive, deletedAt := s.deletedAt))))
  }

  function ExecuteActions(r: Repo, actions: seq<Action>): Result<Repo, Error>
    decreases |actions|
  {
    if actions == [] then Ok(r)
    else
      match ExecuteAction(r, actions[0])
      case Err(e) => Err(e)
      case Ok(r') => ExecuteActions(r', actions[1..])
  }

  /** All decisions, or none of them. */
  function ExecuteMany(r: Repo, decisions: seq<Decision>): Result<Repo, Error>
    decreases |decisions|
  {
    if decisions == [] then Ok(r)
    else
      match ExecuteActions(r, decisions[0].actions)
      case Err(e) => Err(e)
      case Ok(r') => ExecuteMany(r', decisions[1..])
  }

  // ----- Lookups ----------------------------------------------------------

  function FindSource(r: Repo, provider: string, externalId: string): Result<Option<Source>, Error> {
    var found := FindUnscoped(r, provider, externalId);
    if found.Some? then Ok(found)
    else if |ScopedMatches(r, provider, externalId)| > 1 then Err(AmbiguousSource)
    else Ok(None)
  }

  function FindUnscoped(r: Repo, provider: string, externalId: string): (found: Option<Source>) {
    r.sources.First(UnscopedKey(provider, externalId))
  }

  function UnscopedKey(provider: string, externalId: string): Source -> bool {
    (s: Source) => IsUnscoped(s, provider, externalId)
  }

  predicate IsUnscoped(s: Source, provider: string, externalId: string) {
    s.scope.None? && s.provider == provider && s.externalId == Some(externalId)
  }

  function ScopedKey(provider: string, externalId: string): Source -> bool {
    (s: Source) => s.scope.Some? && s.provider == provider && s.externalId == Some(externalId)
  }

  function ScopedMatches(r: Repo, provider: string, externalId: string): seq<Source> {
    r.sources.Select(ScopedKey(provider, externalId))
  }

  function ActiveKey(provider: string): Source -> bool {
    (s: Source) => s.scope.None? && s.provider == provider && s.isActive
  }

  function ActiveSources(r: Repo, provider: string): seq<Source> {
    r.sources.Select(ActiveKey(provider))
  }

  function HashKey(hash: string): Blob -> bool {
    (b: Blob) => b.hash == Some(hash)
  }

  function FindBlobByHash(r: Repo, hash: string): (found: Option<Blob>) {
    r.blobs.First(HashKey(hash))
  }

  function HashInAssetKey(hash: string, assetId: Id): Blob -> bool {
    (b: Blob) => b.hash == Some(hash) && b.assetId == Some(assetId)
  }

  function FindBlobInAsset(r: Repo, hash: string, assetId: Id): (found: Option<Blob>) {
    r.blobs.First(HashInAssetKey(hash, assetId))
  }
}
