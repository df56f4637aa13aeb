/** The in-memory repository: three dictionaries changed in place. Stored sources
    are objects, shared with whoever holds a reference, so a batch that fails half
    way is undone from a deep copy taken before it started. */
module InMemoryStore {
  import opened Prelude
  import opened WorldModel

  /** A source object. Only the two activity fields are ever assigned in place. */
  class AssetSource {
    const base: Source
    var isActive: bool
    var deletedAt: Option<int>

    constructor (s: Source)
      ensures Value() == s && base.id == s.id
    {
      base := s;
      isActive := s.isActive;
      deletedAt := s.deletedAt;
    }

    function Value(): (s: Source)
      reads this
      ensures s.id == base.id
    {
      base.(isActive := isActive, deletedAt := deletedAt)
    }
  }

  datatype StoreAction = StoreAction(kind: ActionType, asset: Option<Asset>, blob: Option<Blob>, source: AssetSource?)

  datatype StoreDecision = StoreDecision(
    actions: seq<StoreAction>, requirements: set<RequirementType>, reason: Reason)

  function ActionValue(a: StoreAction): Action
    reads a.source
  {
    Action(a.kind, a.asset, a.blob, if a.source == null then None else Some(a.source.Value()))
  }

  ghost function Objects(actions: seq<StoreAction>): set<object> {
    set i | 0 <= i < |actions| && actions[i].source != null :: actions[i].source
  }

  function ActionValues(actions: seq<StoreAction>): (values: seq<Action>)
    reads Objects(actions)
    ensures |values| == |actions|
    ensures forall i :: 0 <= i < |actions| ==> values[i] == ActionValue(actions[i])
  {
    if actions == [] then [] else
      assert Objects(actions[1..]) <= Objects(actions);
      [ActionValue(actions[0])] + ActionValues(actions[1..])
  }

  function DecisionValue(d: StoreDecision): Decision
    reads Objects(d.actions)
  {
    Decision(ActionValues(d.actions), d.requirements, d.reason)
  }

  ghost function AllObjects(ds: seq<StoreDecision>): set<object> {
    set i, j | 0 <= i < |ds| && 0 <= j < |ds[i].actions| && ds[i].actions[j].source != null :: ds[i].actions[j].source
  }

  function DecisionValues(ds: seq<StoreDecision>): (values: seq<Decision>)
    reads AllObjects(ds)
    ensures |values| == |ds|
    ensures forall i :: 0 <= i < |ds| ==> values[i] == DecisionValue(ds[i])
  {
    if ds == [] then [] else
      assert Objects(ds[0].actions) <= AllObjects(ds);
      assert AllObjects(ds[1..]) <= AllObjects(ds) by { assert forall i :: 0 <= i < |ds[1..]| ==> ds[1..][i] == ds[i + 1]; }
      [DecisionValue(ds[0])] + DecisionValues(ds[1..])
  }

  /** No two actions share a source object, and none is in `stored`. */
  ghost predicate Apart(actions: seq<StoreAction>, stored: set<object>) {
    && Objects(actions) !! stored
    && forall i, j :: 0 <= i < j < |actions| && actions[i].source != null ==> actions[i].source != actions[j].source
  }

  ghost predicate AllApart(ds: seq<StoreDecision>, stored: set<object>) {
    && (forall i :: 0 <= i < |ds| ==> Apart(ds[i].actions, stored))
    && (forall i, j :: 0 <= i < j < |ds| ==> Objects(ds[i].actions) !! Objects(ds[j].actions))
  }

  function Values(objects: seq<AssetSource>): (values: seq<Source>)
    reads objects
    ensures |values| == |objects|
    ensures forall i :: 0 <= i < |objects| ==> values[i] == objects[i].Value()
  {
    if objects == [] then [] else [objects[0].Value()] + Values(objects[1..])
  }

  lemma ValuesAppend(objects: seq<AssetSource>, o: AssetSource)
    ensures Values(objects + [o]) == Values(objects) + [o.Value()]
  {
  }

  lemma FirstOfNone(rows: map<Id, Source>, p: Source -> bool)
    ensures FirstOf([], rows, p) == None
  {
  }

  lemma SelectOfNone(rows: map<Id, Source>, p: Source -> bool)
    ensures SelectOf([], rows, p) == []
  {
  }

  lemma FirstStep(order: seq<Id>, i: nat, rows: map<Id, Source>, p: Source -> bool)
    requires i < |order| && order[i] in rows
    ensures FirstOf(order[i..], rows, p)
      == if p(rows[order[i]]) then Some(rows[order[i]]) else FirstOf(order[i + 1..], rows, p)
  {
    assert order[i..][0] == order[i] && order[i..][1..] == order[i + 1..];
  }

  lemma SelectStep(order: seq<Id>, i: nat, rows: map<Id, Source>, p: Source -> bool, before: seq<Source>)
    requires i < |order| && order[i] in rows
    ensures before + SelectOf(order[i..], rows, p)
      == (if p(rows[order[i]]) then before + [rows[order[i]]] else before) + SelectOf(order[i + 1..], rows, p)
  {
    assert order[i..][0] == order[i] && order[i..][1..] == order[i + 1..];
  }

  class InMemoryRepository {
    var assets: Table<Asset>
    var blobs: Table<Blob>
    var sourceOrder: seq<Id>
    var sources: map<Id, AssetSource>

    /** Every stored object sits under its own identifier, so no two keys share one. */
    ghost predicate Valid()
      reads this
    {
      && (forall k :: k in sources ==> sources[k].base.id == k)
      && (forall k :: k in sourceOrder <==> k in sources)
    }

    function Contents(): Repo
      reads this, sources.Values
    {
      Repo(assets, blobs, Table(sourceOrder, map k | k in sources :: sources[k].Value()))
    }

    constructor ()
      ensures Valid() && Contents() == EMPTY_REPO && fresh(sources.Values)
    {
      assets, blobs := Table([], map[]), Table([], map[]);
      sourceOrder, sources := [], map[];
    }

    // ----- Lookups -------------------------------------------------------------

    /** The first unscoped match; several scoped matches and no unscoped one are ambiguous. */
    method FindSource(provider: string, externalId: string) returns (found: Result<AssetSource?, Error>)
      requires Valid()
      ensures found.Err? ==> WorldModel.FindSource(Contents(), provider, externalId) == Err(found.error)
      ensures found.Ok? && found.value == null ==> WorldModel.FindSource(Contents(), provider, externalId) == Ok(None)
      ensures found.Ok? && found.value != null ==>
        && found.value in sources.Values
        && WorldModel.FindSource(Contents(), provider, externalId) == Ok(Some(found.value.Value()))
    {
      hide FirstOf, SelectOf;
      ghost var table := Contents().sources;
      FirstOfNone(table.rows, UnscopedKey(provider, externalId));
      SelectOfNone(table.rows, ScopedKey(provider, externalId));
      assert sourceOrder[|sourceOrder|..] == [];
      ghost var scoped := ScopedKey(provider, externalId);
      var scopedMatches := 0;
      for i := 0 to |sourceOrder|
        invariant FirstOf(sourceOrder, table.rows, UnscopedKey(provider, externalId))
               == FirstOf(sourceOrder[i..], table.rows, UnscopedKey(provider, externalId))
        invariant |SelectOf(sourceOrder, table.rows, scoped)|
               == scopedMatches + |SelectOf(sourceOrder[i..], table.rows, scoped)|
      {
        var source := sources[sourceOrder[i]];
        assert source in sources.Values;
        FirstStep(sourceOrder, i, table.rows, UnscopedKey(provider, externalId));
        SelectStep(sourceOrder, i, table.rows, scoped, []);
        if source.base.scope.None? && source.base.provider == provider && source.base.externalId == Some(externalId) {
          return Ok(source);
        }
        if source.base.provider == provider && source.base.externalId == Some(externalId) {
          scopedMatches := scopedMatches + 1;
        }
      }
      if scopedMatches > 1 {
        return Err(AmbiguousSource);
      }
      return Ok(null);
    }

    method ListActiveSources(provider: string) returns (active: seq<AssetSource>)
      requires Valid()
      ensures forall s :: s in active ==> s in sources.Values
      ensures Values(active) == ActiveSources(Contents(), provider)
    {
      ghost var rows, p := Contents().sources.rows, ActiveKey(provider);
      active := [];
      for i := 0 to |sourceOrder|
        invariant forall s :: s in active ==> s in sources.Values
        invariant SelectOf(sourceOrder, rows, p) == Values(active) + SelectOf(sourceOrder[i..], rows, p)
      {
        var source := sources[sourceOrder[i]];
        assert source in sources.Values;
        SelectStep(sourceOrder, i, rows, p, Values(active));
        if source.base.scope.None? && source.base.provider == provider && source.isActive {
          ValuesAppend(active, source);
          active := active + [source];
        }
      }
    }

    method FindBlobByHash(hash: string) returns (found: Option<Blob>)
      requires blobs.WellFormed()
      ensures found == WorldModel.FindBlobByHash(Contents(), hash)
    {
      for i := 0 to |blobs.order|
        invariant FirstOf(blobs.order, blobs.rows, HashKey(hash)) == FirstOf(blobs.order[i..], blobs.rows, HashKey(hash))
      {
        var blob := blobs.rows[blobs.order[i]];
        assert blobs.order[i..][0] == blobs.order[i] && blobs.order[i..][1..] == blobs.order[i + 1..];
        if blob.hash == Some(hash) {
          return Some(blob);
        }
      }
      return None;
    }

    method FindBlobByHashInAsset(hash: string, assetId: Id) returns (found: Option<Blob>)
      requires blobs.WellFormed()
      ensures found == FindBlobInAsset(Contents(), hash, assetId)
    {
      for i := 0 to |blobs.order|
        invariant FirstOf(blobs.order, blobs.rows, HashInAssetKey(hash, assetId))
               == FirstOf(blobs.order[i..], blobs.rows, HashInAssetKey(hash, assetId))
      {
        var blob := blobs.rows[blobs.order[i]];
        assert blobs.order[i..][0] == blobs.order[i] && blobs.order[i..][1..] == blobs.order[i + 1..];
        if blob.hash == Some(hash) && blob.assetId == Some(assetId) {
          return Some(blob);
        }
      }
      return None;
    }

    // ----- Executing decisions -----------------------------------------------------

    /** One action: exactly the specified effect, or the specified error and no effect. */
    method ExecuteAction(a: StoreAction) returns (failed: Option<Error>)
      requires Valid()
      modifies this, sources.Values
      ensures Valid()
      ensures sources.Values <= old(sources.Values) + (if a.source == null then {} else {a.source})
      ensures match WorldModel.ExecuteAction(old(Contents()), old(ActionValue(a)))
        case Err(e) => failed == Some(e)
        case Ok(r) => failed == None && Contents() == r
    {
      match a.kind {
        case CreateAsset =>
          if a.asset.None? { return Some(MissingPayload(a.kind)); }
          assets := assets.Put(a.asset.value.id, a.asset.value);
        case CreateBlob =>
          if a.blob.None? { return Some(MissingPayload(a.kind)); }
          blobs := blobs.Put(a.blob.value.id, a.blob.value);
        case CreateSource =>
          if a.source == null { return Some(MissingPayload(a.kind)); }
          Store(a.source);
        case UpdateSource =>
          if a.source == null { return Some(MissingPayload(a.kind)); }
          if a.source.base.id !in sources { return Some(SourceNotFound(a.source.base.id)); }
          Store(a.source);
        case DeactivateSource =>
          if a.source == null { return Some(MissingPayload(a.kind)); }
          if a.source.base.id !in sources { return Some(SourceNotFound(a.source.base.id)); }
          var stored := sources[a.source.base.id];
          assert stored in sources.Values;
          stored.isActive := a.source.isActive;
          stored.deletedAt := a.source.deletedAt;
          assert Contents().sources.rows == old(Contents()).sources.rows[stored.base.id := stored.Value()];
      }
      return None;
    }

    /** `sources[source.id] = source`: the dictionary now shares the object. */
    method Store(source: AssetSource)
      requires Valid()
      modifies this`sourceOrder, this`sources
      ensures Valid() && sources.Values <= old(sources.Values) + {source}
      ensures Contents() == old(Contents()).(sources := old(Contents()).sources.Put(source.base.id, source.Value()))
    {
      if source.base.id !in sources {
        sourceOrder := sourceOrder + [source.base.id];
      }
      sources := sources[source.base.id := source];
      assert Contents().sources.rows == old(Contents()).sources.rows[source.base.id := source.Value()];
    }

    /** All actions of one decision, stopping at the first error without undoing. */
    method ExecuteDecision(d: StoreDecision) returns (failed: Option<Error>)
      requires Valid()
      modifies this, sources.Values, Objects(d.actions)
      ensures Valid()
      ensures sources.Values <= old(sources.Values) + Objects(d.actions)
      ensures Apart(d.actions, old(sources.Values)) ==>
        match ExecuteActions(old(Contents()), old(ActionValues(d.actions)))
        case Err(e) => failed == Some(e)
        case Ok(r) => failed == None && Contents() == r
    {
      hide ExecuteActions, WorldModel.ExecuteAction, Contents, ActionValues, Apart;
      ghost var start, values := Contents(), ActionValues(d.actions);
      ghost var apart := Apart(d.actions, sources.Values);
      assert values[0..] == values;
      for i := 0 to |d.actions|
        invariant Valid()
        invariant sources.Values <= old(sources.Values) + Objects(d.actions[..i])
        invariant apart ==> ExecuteActions(start, values) == ExecuteActions(Contents(), values[i..])
        invariant apart ==> forall j :: i <= j < |d.actions| ==> ActionValue(d.actions[j]) == values[j]
      {
        ObjectsSplit(d.actions, i);
        ExecuteStep(Contents(), values, i);
        ghost var stored := sources.Values;
        if apart {
          LaterNotStored(d.actions, i, old(sources.Values), stored);
        }
        failed := ExecuteAction(d.actions[i]);
        if failed.Some? {
          return;
        }
      }
      assert d.actions[..|d.actions|] == d.actions;
      assert values[|d.actions|..] == [];
      ExecuteNone(Contents());
      failed := None;
    }

    /** The snapshot: a copy of every stored object. */
    method DeepCopySources() returns (copy: map<Id, AssetSource>)
      requires Valid()
      ensures copy.Keys == sources.Keys && forall k :: k in copy ==> fresh(copy[k])
      ensures forall k :: k in sources ==> copy[k].base.id == k && copy[k].Value() == sources[k].Value()
    {
      copy := map[];
      for i := 0 to |sourceOrder|
        invariant copy.Keys == set k | k in sourceOrder[..i]
        invariant forall k :: k in copy ==> fresh(copy[k])
        invariant forall k :: k in copy ==> copy[k].base.id == k && copy[k].Value() == sources[k].Value()
      {
        var id := sourceOrder[i];
        var clone := new AssetSource(sources[id].Value());
        assert sourceOrder[..i + 1] == sourceOrder[..i] + [id];
        copy := copy[id := clone];
      }
    }

    /** The decisions in order, stopping at the first error without undoing. */
    method ExecuteInOrder(ds: seq<StoreDecision>) returns (failed: Option<Error>)
      requires Valid()
      modifies this, sources.Values, AllObjects(ds)
      ensures Valid()
      ensures forall o :: o in sources.Values ==> o in old(sources.Values) || o in AllObjects(ds)
      ensures AllApart(ds, old(sources.Values)) ==>
        match WorldModel.ExecuteMany(old(Contents()), old(DecisionValues(ds)))
        case Err(e) => failed == Some(e)
        case Ok(r) => failed == None && Contents() == r
    {
      hide WorldModel.ExecuteMany, ExecuteActions, DecisionValue, Contents, AllObjects, AllApart, Apart;
      ghost var start, values := Contents(), DecisionValues(ds);
      ghost var apart := AllApart(ds, sources.Values);
      assert values[0..] == values;
      if apart {
        AllApartFrom(ds, sources.Values);
      }
      for i := 0 to |ds|
        invariant Valid()
        invariant forall o :: o in sources.Values ==> o in old(sources.Values) || o in AllObjects(ds)
        invariant apart ==> ApartFrom(ds, i, sources.Values)
        invariant apart ==> WorldModel.ExecuteMany(start, values) == WorldModel.ExecuteMany(Contents(), values[i..])
        invariant apart ==> forall j :: i <= j < |ds| ==> DecisionValue(ds[j]) == values[j]
      {
        ObjectsOf(ds, i);
        ManyStep(Contents(), values, i);
        DecisionActions(ds[i]);
        if apart {
          ApartAt(ds, i, old(sources.Values), sources.Values);
        }
        failed := ExecuteDecision(ds[i]);
        if failed.Some? {
          return;
        }
      }
      assert values[|ds|..] == [];
      ManyNone(Contents());
      failed := None;
    }

    /** All decisions or none: a failure leaves the contents as they were, whatever
        was assigned in place and whatever objects the decisions share. */
    method ExecuteMany(ds: seq<StoreDecision>) returns (failed: Option<Error>)
      requires Valid()
      modifies this, sources.Values, AllObjects(ds)
      ensures Valid()
      ensures forall o :: o in sources.Values ==> o in old(sources.Values) || o in AllObjects(ds) || fresh(o)
      ensures failed.Some? ==> Contents() == old(Contents())
      ensures AllApart(ds, old(sources.Values)) ==>
        match WorldModel.ExecuteMany(old(Contents()), old(DecisionValues(ds)))
        case Err(e) => failed == Some(e)
        case Ok(r) => failed == None && Contents() == r
    {
      hide *;
      ghost var start := Contents();
      var assetsBefore, blobsBefore, orderBefore := assets, blobs, sourceOrder;
      ContentsFields();
      ValidKeys();
      var sourcesBefore := Snapshot(ds);
      label copied:
      failed := ExecuteInOrder(ds);
      if failed.Some? {
        CopyUnchanged@copied(sourcesBefore);
        assets, blobs, sourceOrder, sources := assetsBefore, blobsBefore, orderBefore, sourcesBefore;
        RestoredContents(start);
      }
    }

    /** The snapshot, taken without touching the decisions about to run. */
    method Snapshot(ds: seq<StoreDecision>) returns (copy: map<Id, AssetSource>)
      requires Valid()
      ensures copy.Keys == sources.Keys && forall k :: k in copy ==> fresh(copy[k]) && copy[k].base.id == k
      ensures forall k :: k in copy ==> copy[k] !in AllObjects(ds) && copy[k] !in sources.Values
      ensures CopyOf(copy) == Contents().sources.rows
      ensures DecisionValues(ds) == old(DecisionValues(ds))
    {
      copy := DeepCopySources();
      CopiedContents(copy);
      SameValues(ds);
    }

    twostate lemma CopyUnchanged(copy: map<Id, AssetSource>)
      requires forall k :: k in copy ==> unchanged(copy[k])
      ensures CopyOf(copy) == old(CopyOf(copy))
    {
    }

    twostate lemma SameValues(ds: seq<StoreDecision>)
      requires forall o :: o in AllObjects(ds) ==> unchanged(o)
      ensures DecisionValues(ds) == old(DecisionValues(ds))
    {
    }

    function CopyOf(copy: map<Id, AssetSource>): map<Id, Source>
      reads copy.Values
    {
      map k | k in copy :: copy[k].Value()
    }

    lemma ValidKeys()
      requires Valid()
      ensures forall k :: k in sourceOrder <==> k in sources
    {
    }

    lemma ContentsFields()
      ensures Contents().assets == assets && Contents().blobs == blobs && Contents().sources.order == sourceOrder
    {
    }

    lemma CopiedContents(copy: map<Id, AssetSource>)
      requires copy.Keys == sources.Keys && forall k :: k in sources ==> copy[k].Value() == sources[k].Value()
      ensures CopyOf(copy) == Contents().sources.rows
    {
    }

    lemma RestoredContents(start: Repo)
      requires assets == start.assets && blobs == start.blobs && sourceOrder == start.sources.order
      requires CopyOf(sources) == start.sources.rows && forall k :: k in sources ==> sources[k].base.id == k
      requires forall k :: k in sourceOrder <==> k in sources
      ensures Valid() && Contents() == start
    {
    }
  }

  lemma ObjectsOf(ds: seq<StoreDecision>, i: nat)
    requires i < |ds|
    ensures Objects(ds[i].actions) <= AllObjects(ds)
  {
  }

  /** The decisions from i on share nothing with what is stored. */
  ghost predicate ApartFrom(ds: seq<StoreDecision>, i: nat, stored: set<object>) {
    forall j :: i <= j < |ds| ==> Objects(ds[j].actions) !! stored
  }

  lemma AllApartFrom(ds: seq<StoreDecision>, stored: set<object>)
    requires AllApart(ds, stored)
    ensures ApartFrom(ds, 0, stored)
  {
  }

  lemma ApartAt(ds: seq<StoreDecision>, i: nat, before: set<object>, stored: set<object>)
    requires i < |ds| && AllApart(ds, before) && ApartFrom(ds, i, stored)
    ensures Apart(ds[i].actions, stored)
    ensures forall later: set<object> :: later <= stored + Objects(ds[i].actions) ==> ApartFrom(ds, i + 1, later)
    ensures forall j :: i < j < |ds| ==> Objects(ds[j].actions) !! (stored + Objects(ds[i].actions))
  {
  }

  lemma DecisionActions(d: StoreDecision)
    ensures DecisionValue(d).actions == ActionValues(d.actions)
  {
  }

  lemma ManyStep(r: Repo, values: seq<Decision>, i: nat)
    requires i < |values|
    ensures WorldModel.ExecuteMany(r, values[i..]) ==
      match ExecuteActions(r, values[i].actions)
      case Err(e) => Err(e)
      case Ok(r') => WorldModel.ExecuteMany(r', values[i + 1..])
  {
    assert values[i..][1..] == values[i + 1..];
    hide ExecuteActions;
  }

  lemma ManyNone(r: Repo)
    ensures WorldModel.ExecuteMany(r, []) == Ok(r)
  {
  }

  lemma ObjectsSplit(actions: seq<StoreAction>, i: nat)
    requires i < |actions|
    ensures Objects(actions[..i + 1])
      == Objects(actions[..i]) + (if actions[i].source == null then {} else {actions[i].source})
    ensures Objects(actions[..i]) <= Objects(actions) && Objects(actions[..i + 1]) <= Objects(actions)
  {
    assert actions[..i + 1] == actions[..i] + [actions[i]];
    assert forall k :: 0 <= k < i ==> actions[..i + 1][k] == actions[..i][k];
  }

  lemma LaterNotStored(actions: seq<StoreAction>, i: nat, before: set<object>, stored: set<object>)
    requires i < |actions| && Apart(actions, before) && stored <= before + Objects(actions[..i])
    ensures forall j :: i <= j < |actions| && actions[j].source != null ==> actions[j].source !in stored
  {
    forall j | i <= j < |actions| && actions[j].source != null ensures actions[j].source !in Objects(actions[..i]) {
      assert actions[j].source in Objects(actions);
    }
  }

  lemma ExecuteNone(r: Repo)
    ensures ExecuteActions(r, []) == Ok(r)
  {
  }

  lemma ExecuteStep(r: Repo, actions: seq<Action>, i: nat)
    requires i < |actions|
    ensures ExecuteActions(r, actions[i..]) ==
      match WorldModel.ExecuteAction(r, actions[i])
      case Err(e) => Err(e)
      case Ok(r') => ExecuteActions(r', actions[i + 1..])
  {
    assert actions[i..][1..] == actions[i + 1..];
  }
}
