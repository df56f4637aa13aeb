/** Observed statements about resources: batches and their validity, and the table in
    which publishing a batch retires what it replaces without losing it. */
module StatementTable {
  import opened Prelude

  type AssetId = nat
  type PredicateName = string

  datatype ValueType = StringType | IntegerType | FloatType | BooleanType | DatetimeType | ResourceRefType

  datatype Value =
    | StringValue(s: string) | IntegerValue(n: int) | FloatValue(x: real) | BooleanValue(b: bool)
    | DatetimeValue(t: int) | ResourceRefValue(asset: AssetId)
  {
    function Type(): ValueType {
      match this
      case StringValue(_) => StringType
      case IntegerValue(_) => IntegerType
      case FloatValue(_) => FloatType
      case BooleanValue(_) => BooleanType
      case DatetimeValue(_) => DatetimeType
      case ResourceRefValue(_) => ResourceRefType
    }
  }

  datatype Cardinality = Single | Multiple

  datatype PredicateDefinition = PredicateDefinition(valueType: ValueType, cardinality: Cardinality)

  datatype Draft = Draft(
    predicateName: PredicateName, value: Value, sourceKind: string, sourceLocator: string, confidence: Option<real>)

  datatype Generator = Generator(kind: string, name: string, version: string)

  datatype Batch = Batch(
    subject: AssetId, generator: Generator, covered: seq<PredicateName>, fingerprint: string, statements: seq<Draft>)

  datatype BatchError = NotCovered | WrongType | DuplicateValue | MultipleValues

  // ----- Validity of a batch -------------------------------------------------------------

  /** What a batch's statements must be, over the definitions of its covered predicates. */
  ghost predicate ValidStatements(definitions: map<PredicateName, PredicateDefinition>, drafts: seq<Draft>) {
    && (forall i :: 0 <= i < |drafts| ==> WellTyped(definitions, drafts[i]))
    && (forall i, j :: 0 <= i < j < |drafts| ==> Compatible(definitions, drafts[i], drafts[j]))
  }

  predicate WellTyped(definitions: map<PredicateName, PredicateDefinition>, d: Draft) {
    d.predicateName in definitions && d.value.Type() == definitions[d.predicateName].valueType
  }

  /** Two statements of one batch: different values, and different predicates if single-valued. */
  predicate Compatible(definitions: map<PredicateName, PredicateDefinition>, a: Draft, b: Draft) {
    a.predicateName == b.predicateName ==>
      && a.value != b.value
      && (a.predicateName in definitions ==> definitions[a.predicateName].cardinality.Multiple?)
  }

  function CountOf(drafts: seq<Draft>, p: PredicateName): nat
    decreases |drafts|
  {
    if drafts == [] then 0
    else CountOf(drafts[..|drafts| - 1], p) + if drafts[|drafts| - 1].predicateName == p then 1 else 0
  }

  lemma {:induction false} CountsOne(drafts: seq<Draft>, p: PredicateName)
    ensures CountOf(drafts, p) == 0 <==> forall i :: 0 <= i < |drafts| ==> drafts[i].predicateName != p
    ensures CountOf(drafts, p) <= 1 <==>
      forall i, j :: 0 <= i < j < |drafts| ==> drafts[i].predicateName != p || drafts[j].predicateName != p
    decreases |drafts|
  {
    if drafts != [] {
      var front := drafts[..|drafts| - 1];
      CountsOne(front, p);
      assert forall i :: 0 <= i < |front| ==> front[i] == drafts[i];
      if CountOf(drafts, p) > 1 && CountOf(front, p) == 1 {
        var i :| 0 <= i < |front| && front[i].predicateName == p;
        assert drafts[i].predicateName == p && drafts[|drafts| - 1].predicateName == p;
      } else if CountOf(front, p) > 1 {
        var i, j :| 0 <= i < j < |front| && front[i].predicateName == p && front[j].predicateName == p;
        assert drafts[i].predicateName == p && drafts[j].predicateName == p;
      }
    }
  }

  /** What the loop has gathered from the first drafts. */
  ghost predicate Tallied(drafts: seq<Draft>, counts: map<PredicateName, nat>) {
    forall p :: (p in counts <==> CountOf(drafts, p) > 0) && (p in counts ==> counts[p] == CountOf(drafts, p))
  }

  ghost predicate Seen(drafts: seq<Draft>, seen: set<(PredicateName, Value)>) {
    forall key :: key in seen <==> exists d :: d in drafts && (d.predicateName, d.value) == key
  }

  ghost predicate Distinct(drafts: seq<Draft>) {
    forall i, j :: 0 <= i < j < |drafts| ==>
      drafts[i].predicateName != drafts[j].predicateName || drafts[i].value != drafts[j].value
  }

  lemma TallyOne(drafts: seq<Draft>, d: Draft, counts: map<PredicateName, nat>)
    requires Tallied(drafts, counts)
    ensures Tallied(drafts + [d],
      counts[d.predicateName := (if d.predicateName in counts then counts[d.predicateName] else 0) + 1])
  {
    assert (drafts + [d])[..|drafts|] == drafts;
  }

  lemma SeenOne(drafts: seq<Draft>, d: Draft, seen: set<(PredicateName, Value)>)
    requires Seen(drafts, seen) && Distinct(drafts)
    ensures Seen(drafts + [d], seen + {(d.predicateName, d.value)})
    ensures Distinct(drafts + [d]) <==> (d.predicateName, d.value) !in seen
  {
    var more := drafts + [d];
    assert forall x :: x in more <==> x in drafts || x == d;
    if (d.predicateName, d.value) in seen {
      var e :| e in drafts && (e.predicateName, e.value) == (d.predicateName, d.value);
      var i :| 0 <= i < |drafts| && drafts[i] == e;
      assert more[i] == e && more[|drafts|] == d;
    } else {
      assert forall i :: 0 <= i < |drafts| ==> drafts[i] in drafts;
    }
  }

  /** `_validate_statement_set`: accepts exactly the valid sets. */
  method ValidateStatementSet(definitions: map<PredicateName, PredicateDefinition>, drafts: seq<Draft>)
    returns (refused: Option<BatchError>)
    ensures refused.None? <==> ValidStatements(definitions, drafts)
  {
    hide CountOf, Tallied, Seen, Distinct, ValidStatements, WellTyped;
    var counts: map<PredicateName, nat> := map[];
    var seen: set<(PredicateName, Value)> := {};
    NothingSeen();
    assert drafts[..0] == [];
    for i := 0 to |drafts|
      invariant forall k :: 0 <= k < i ==> WellTyped(definitions, drafts[k])
      invariant Tallied(drafts[..i], counts) && Seen(drafts[..i], seen) && Distinct(drafts[..i])
    {
      var d := drafts[i];
      assert drafts[..i + 1] == drafts[..i] + [d];
      TypedExactly(definitions, drafts, i);
      if d.predicateName !in definitions {
        return Some(NotCovered);
      }
      if d.value.Type() != definitions[d.predicateName].valueType {
        return Some(WrongType);
      }
      TallyOne(drafts[..i], d, counts);
      SeenOne(drafts[..i], d, seen);
      DistinctFront(definitions, drafts, i + 1);
      counts := counts[d.predicateName := (if d.predicateName in counts then counts[d.predicateName] else 0) + 1];
      if (d.predicateName, d.value) in seen {
        return Some(DuplicateValue);
      }
      seen := seen + {(d.predicateName, d.value)};
    }
    assert drafts[..|drafts|] == drafts;
    SingleCounts(definitions, drafts, counts);
    if exists p :: p in counts && p in definitions && definitions[p].cardinality.Single? && counts[p] > 1 {
      return Some(MultipleValues);
    }
    return None;
  }

  lemma NothingSeen()
    ensures Tallied([], map[]) && Seen([], {}) && Distinct([])
  {
  }

  lemma TypedExactly(definitions: map<PredicateName, PredicateDefinition>, drafts: seq<Draft>, i: nat)
    requires i < |drafts|
    ensures WellTyped(definitions, drafts[i])
      <==> drafts[i].predicateName in definitions && drafts[i].value.Type() == definitions[drafts[i].predicateName].valueType
    ensures !WellTyped(definitions, drafts[i]) ==> !ValidStatements(definitions, drafts)
  {
  }

  lemma DistinctFront(definitions: map<PredicateName, PredicateDefinition>, drafts: seq<Draft>, n: nat)
    requires n <= |drafts|
    ensures !Distinct(drafts[..n]) ==> !ValidStatements(definitions, drafts)
  {
    if !Distinct(drafts[..n]) {
      var i, j :| 0 <= i < j < n && drafts[..n][i].predicateName == drafts[..n][j].predicateName
        && drafts[..n][i].value == drafts[..n][j].value;
      assert !Compatible(definitions, drafts[i], drafts[j]);
    }
  }

  lemma SingleCounts(
    definitions: map<PredicateName, PredicateDefinition>, drafts: seq<Draft>, counts: map<PredicateName, nat>)
    requires forall k :: 0 <= k < |drafts| ==> WellTyped(definitions, drafts[k])
    requires Tallied(drafts, counts) && Distinct(drafts)
    ensures (exists p :: p in counts && p in definitions && definitions[p].cardinality.Single? && counts[p] > 1)
      <==> !ValidStatements(definitions, drafts)
  {
    if exists p :: p in counts && p in definitions && definitions[p].cardinality.Single? && counts[p] > 1 {
      var p :| p in counts && p in definitions && definitions[p].cardinality.Single? && counts[p] > 1;
      CountsOne(drafts, p);
      var i, j :| 0 <= i < j < |drafts| && drafts[i].predicateName == p && drafts[j].predicateName == p;
      assert !Compatible(definitions, drafts[i], drafts[j]);
    }
    if !ValidStatements(definitions, drafts) {
      var i, j :| 0 <= i < j < |drafts| && !Compatible(definitions, drafts[i], drafts[j]);
      CountsOne(drafts, drafts[i].predicateName);
      assert drafts[i].predicateName in counts && counts[drafts[i].predicateName] > 1;
    }
  }

  function DefinitionsOf(registry: map<PredicateName, PredicateDefinition>, covered: seq<PredicateName>)
    : map<PredicateName, PredicateDefinition>
  {
    map p | p in covered && p in registry :: registry[p]
  }

  predicate IsDigest(s: string) {
    |s| == 64 && forall i :: 0 <= i < 64 ==> '0' <= s[i] <= '9' || 'a' <= s[i] <= 'f'
  }

  ghost predicate ValidBatch(registry: map<PredicateName, PredicateDefinition>, b: Batch) {
    && b.covered != [] && (forall i, j :: 0 <= i < j < |b.covered| ==> b.covered[i] != b.covered[j])
    && (forall p :: p in b.covered ==> p in registry)
    && IsDigest(b.fingerprint)
    && ValidStatements(DefinitionsOf(registry, b.covered), b.statements)
  }

  // ----- The table -------------------------------------------------------------------------

  datatype Row = Row(subject: AssetId, generator: Generator, draft: Draft, createdAt: int, isCurrent: bool)

  datatype EnrichmentStatus = Running | Completed | Failed

  datatype Enrichment = Enrichment(
    fingerprint: string, status: EnrichmentStatus, startedAt: int, completedAt: Option<int>, updatedAt: int,
    error: Option<string>)

  datatype TableError = ResourceNotFound | OtherGeneratorIsCurrent | StateNotFound | StorageFailed

  datatype PublishResult = PublishResult(writes: nat, deactivated: nat)

  /** The rows a batch replaces. */
  predicate Replaces(b: Batch, r: Row) {
    r.isCurrent && r.subject == b.subject && r.generator == b.generator && r.draft.predicateName in b.covered
  }

  function Current(rows: seq<Row>, b: Batch): seq<Draft>
    decreases |rows|
  {
    if rows == [] then []
    else
      Current(rows[..|rows| - 1], b) + if Replaces(b, rows[|rows| - 1]) then [rows[|rows| - 1].draft] else []
  }

  /** History only grows: rows stay, and at most stop being current. */
  ghost predicate HistoryKept(before: seq<Row>, after: seq<Row>) {
    && |before| <= |after|
    && forall i :: 0 <= i < |before| ==> after[i] == before[i] || after[i] == before[i].(isCurrent := false)
  }

  /** Nothing outside the batch's asset, generator and predicates is touched. */
  ghost predicate OthersKept(b: Batch, before: seq<Row>, after: seq<Row>)
    requires |before| <= |after|
  {
    && (forall i :: 0 <= i < |before| && !Replaces(b, before[i]) ==> after[i] == before[i])
    && (forall i :: |before| <= i < |after| ==> Replaces(b, after[i]))
  }

  /** Of one generator, a resource has no predicate value twice, and no single-valued
      predicate two values, among its current statements. */
  ghost predicate OneValue(registry: map<PredicateName, PredicateDefinition>, rows: seq<Row>) {
    forall i, j :: 0 <= i < j < |rows| ==> Coexist(registry, rows[i], rows[j])
  }

  predicate Coexist(registry: map<PredicateName, PredicateDefinition>, r: Row, s: Row) {
    r.isCurrent && s.isCurrent && r.subject == s.subject && r.generator == s.generator ==>
      Compatible(registry, r.draft, s.draft)
  }

  /** Within a family of generators, only one is current for a resource's predicate. */
  ghost predicate Exclusive(rows: seq<Row>, kind: string, family: set<string>) {
    forall i, j :: 0 <= i < |rows| && 0 <= j < |rows| ==> NotRivals(rows[i], rows[j], kind, family)
  }

  predicate NotRivals(r: Row, s: Row, kind: string, family: set<string>) {
    && r.isCurrent && s.isCurrent && r.subject == s.subject && r.draft.predicateName == s.draft.predicateName
    && r.generator.kind == kind && s.generator.kind == kind && r.generator.name in family && s.generator.name in family ==>
      r.generator == s.generator
  }

  // ----- Retiring and adding -------------------------------------------------------------

  function Retired(rows: seq<Row>, b: Batch): (after: seq<Row>)
    ensures |after| == |rows|
    ensures forall i :: 0 <= i < |rows| ==> after[i] == if Replaces(b, rows[i]) then rows[i].(isCurrent := false) else rows[i]
  {
    seq(|rows|, i requires 0 <= i < |rows| => if Replaces(b, rows[i]) then rows[i].(isCurrent := false) else rows[i])
  }

  function NewRows(b: Batch, drafts: seq<Draft>, now: int): (rows: seq<Row>)
    ensures |rows| == |drafts|
    ensures forall i :: 0 <= i < |drafts| ==> rows[i] == Row(b.subject, b.generator, drafts[i], now, true)
  {
    seq(|drafts|, i requires 0 <= i < |drafts| => Row(b.subject, b.generator, drafts[i], now, true))
  }

  lemma {:induction false} RetiredHasNone(rows: seq<Row>, b: Batch)
    ensures Current(Retired(rows, b), b) == []
    decreases |rows|
  {
    if rows != [] {
      RetiredHasNone(rows[..|rows| - 1], b);
      assert Retired(rows, b)[..|rows| - 1] == Retired(rows[..|rows| - 1], b);
    }
  }

  lemma {:induction false} CurrentOfNew(rows: seq<Row>, b: Batch, drafts: seq<Draft>, now: int)
    requires forall d :: d in drafts ==> d.predicateName in b.covered
    ensures Current(rows + NewRows(b, drafts, now), b) == Current(rows, b) + drafts
    decreases |drafts|
  {
    if drafts == [] {
      assert rows + NewRows(b, drafts, now) == rows;
    } else {
      var front, last := drafts[..|drafts| - 1], drafts[|drafts| - 1];
      var row := Row(b.subject, b.generator, last, now, true);
      assert last in drafts && drafts == front + [last];
      CurrentOfNew(rows, b, front, now);
      CurrentAppend(rows + NewRows(b, front, now), b, row);
      hide Current;
      assert rows + NewRows(b, drafts, now) == rows + NewRows(b, front, now) + [row];
    }
  }

  lemma CurrentAppend(rows: seq<Row>, b: Batch, row: Row)
    ensures Current(rows + [row], b) == Current(rows, b) + if Replaces(b, row) then [row.draft] else []
  {
    assert (rows + [row])[..|rows|] == rows;
  }

  /** Retiring and adding is all that happens to the rows. */
  lemma ReplacementKeeps(rows: seq<Row>, b: Batch, added: seq<Row>)
    requires forall i :: 0 <= i < |added| ==> Replaces(b, added[i])
    ensures HistoryKept(rows, Retired(rows, b) + added) && OthersKept(b, rows, Retired(rows, b) + added)
  {
    hide Replaces;
  }

  lemma ReplacingKeepsOneValue(registry: map<PredicateName, PredicateDefinition>, rows: seq<Row>, b: Batch, now: int)
    requires ValidBatch(registry, b) && OneValue(registry, rows)
    ensures OneValue(registry, Retired(rows, b) + NewRows(b, b.statements, now))
  {
    var after := Retired(rows, b) + NewRows(b, b.statements, now);
    forall i, j | 0 <= i < j < |after| ensures Coexist(registry, after[i], after[j]) {
      if j < |rows| {
        assert Coexist(registry, rows[i], rows[j]);
      } else if i < |rows| {
        assert WellTyped(DefinitionsOf(registry, b.covered), b.statements[j - |rows|]);
      } else {
        assert Compatible(DefinitionsOf(registry, b.covered), b.statements[i - |rows|], b.statements[j - |rows|]);
        assert WellTyped(DefinitionsOf(registry, b.covered), b.statements[j - |rows|]);
      }
    }
  }

  /** Another generator of the family is current where the batch would publish. */
  predicate Conflicts(b: Batch, family: set<string>, r: Row) {
    && r.isCurrent && r.subject == b.subject && r.draft.predicateName in b.covered
    && r.generator.kind == b.generator.kind && r.generator.name in family
    && (r.generator.name != b.generator.name || r.generator.version != b.generator.version)
  }

  /** Told on the rows: a current statement of the asset, about a predicate the batch
      covers, by a generator of the same kind with a name in the family that is another
      generator or another version of it. */
  predicate RivalStands(rows: seq<Row>, b: Batch, family: set<string>) {
    exists r :: r in rows && r.isCurrent && r.subject == b.subject && r.draft.predicateName in b.covered
      && r.generator.kind == b.generator.kind && r.generator.name in family
      && !(r.generator.name == b.generator.name && r.generator.version == b.generator.version)
  }

  /** A current statement of the asset by that very generator, about a covered predicate. */
  predicate States(b: Batch, r: Row) {
    && r.isCurrent == true && r.subject == b.subject && r.draft.predicateName in b.covered
    && r.generator.kind == b.generator.kind && r.generator.name == b.generator.name
    && r.generator.version == b.generator.version
  }

  predicate Stated(rows: seq<Row>, b: Batch, d: Draft) {
    exists r :: r in rows && States(b, r) && r.draft == d
  }

  /** The current drafts are what the rows state. */
  lemma {:induction false} CurrentStates(rows: seq<Row>, b: Batch)
    ensures forall d :: d in Current(rows, b) <==> Stated(rows, b, d)
    decreases |rows|
  {
    if rows != [] {
      var front, last := rows[..|rows| - 1], rows[|rows| - 1];
      CurrentStates(front, b);
      assert forall r :: r in rows <==> r in front || r == last;
      assert Replaces(b, last) <==> States(b, last) by {
        assert last.generator == Generator(last.generator.kind, last.generator.name, last.generator.version);
        assert b.generator == Generator(b.generator.kind, b.generator.name, b.generator.version);
      }
      hide Replaces, States;
    }
  }

  lemma RivalIsConflict(rows: seq<Row>, b: Batch, family: set<string>)
    ensures RivalStands(rows, b, family) <==> exists i :: 0 <= i < |rows| && Conflicts(b, family, rows[i])
    ensures !RivalStands(rows, b, {})
  {
    if RivalStands(rows, b, family) {
      var r :| r in rows && r.isCurrent && r.subject == b.subject && r.draft.predicateName in b.covered
        && r.generator.kind == b.generator.kind && r.generator.name in family
        && !(r.generator.name == b.generator.name && r.generator.version == b.generator.version);
      var i :| 0 <= i < |rows| && rows[i] == r;
      assert Conflicts(b, family, rows[i]);
    }
  }

  lemma PublishedStates(b: Batch, before: seq<Row>, after: seq<Row>, current: seq<Draft>)
    requires |before| <= |after| && OthersKept(b, before, after) && multiset(current) == multiset(b.statements)
    ensures forall d :: d in current <==> d in b.statements
    ensures forall i :: 0 <= i < |before| && !States(b, before[i]) ==> after[i] == before[i]
    ensures forall i :: |before| <= i < |after| ==> States(b, after[i])
  {
    forall d ensures d in current <==> d in b.statements {
      assert d in multiset(current) <==> d in current;
      assert d in multiset(b.statements) <==> d in b.statements;
    }
    forall i | 0 <= i < |after|
      ensures i < |before| && !States(b, before[i]) ==> after[i] == before[i]
      ensures i >= |before| ==> States(b, after[i])
    {
      OthersStay(b, before, after, i);
    }
  }

  lemma OthersStay(b: Batch, before: seq<Row>, after: seq<Row>, i: nat)
    requires |before| <= |after| && OthersKept(b, before, after) && i < |after|
    ensures i < |before| && !States(b, before[i]) ==> after[i] == before[i]
    ensures i >= |before| ==> States(b, after[i])
  {
  }

  /** A generator of a family publishes under that family's guard. */
  predicate Guarded(b: Batch, kind: string, others: set<string>, family: set<string>) {
    b.generator.kind == kind && b.generator.name in others ==> others == family
  }

  lemma ReplacingKeepsExclusive(rows: seq<Row>, b: Batch, now: int, kind: string, family: set<string>)
    requires Exclusive(rows, kind, family) && forall d :: d in b.statements ==> d.predicateName in b.covered
    requires b.generator.kind == kind && b.generator.name in family ==>
      forall i :: 0 <= i < |rows| ==> !Conflicts(b, family, rows[i])
    ensures Exclusive(Retired(rows, b) + NewRows(b, b.statements, now), kind, family)
  {
    var after := Retired(rows, b) + NewRows(b, b.statements, now);
    forall i, j | 0 <= i < |after| && 0 <= j < |after| ensures NotRivals(after[i], after[j], kind, family) {
      if i < |rows| && j < |rows| {
        assert NotRivals(rows[i], rows[j], kind, family);
      } else if i < |rows| {
        assert b.statements[j - |rows|] in b.statements;
        assert b.generator.kind == kind && b.generator.name in family ==> !Conflicts(b, family, rows[i]);
      } else if j < |rows| {
        assert b.statements[i - |rows|] in b.statements;
        assert b.generator.kind == kind && b.generator.name in family ==> !Conflicts(b, family, rows[j]);
      }
    }
  }

  lemma DraftsCovered(registry: map<PredicateName, PredicateDefinition>, b: Batch)
    requires ValidBatch(registry, b)
    ensures forall d :: d in b.statements ==> d.predicateName in b.covered
  {
    forall d | d in b.statements ensures d.predicateName in b.covered {
      var i :| 0 <= i < |b.statements| && b.statements[i] == d;
      assert WellTyped(DefinitionsOf(registry, b.covered), b.statements[i]);
    }
  }

  class ObservationRepository {
    const registry: map<PredicateName, PredicateDefinition>
    const assets: set<AssetId>
    /** When false, a transaction may fail and roll back at any time. */
    const reliable: bool
    var rows: seq<Row>
    var states: map<(AssetId, Generator), Enrichment>

    ghost predicate Valid()
      reads this
    {
      OneValue(registry, rows)
    }

    constructor (registry: map<PredicateName, PredicateDefinition>, assets: set<AssetId>, reliable: bool)
      ensures Valid() && rows == [] && states == map[] && this.registry == registry && this.assets == assets
      ensures this.reliable == reliable
    {
      this.registry, this.assets, this.reliable, rows, states := registry, assets, reliable, [], map[];
    }

    /** `publish`: one transaction. The batch becomes what is current of its asset,
        generator and predicates; what it replaces stays as history. */
    method Publish(b: Batch, now: int, family: set<string>) returns (r: Result<PublishResult, TableError>)
      requires Valid() && ValidBatch(registry, b)
      modifies this
      ensures Valid() && HistoryKept(old(rows), rows) && OthersKept(b, old(rows), rows)
      ensures r.Err? ==> rows == old(rows) && states == old(states)
      ensures r.Ok? ==> b.subject in assets && !RivalStands(old(rows), b, family)
      ensures reliable && b.subject in assets && !RivalStands(old(rows), b, family) ==> r.Ok?
      ensures r.Ok? ==> forall d :: Stated(rows, b, d) <==> d in b.statements
      ensures forall i :: 0 <= i < |old(rows)| && !States(b, old(rows)[i]) ==> rows[i] == old(rows)[i]
      ensures forall i :: |old(rows)| <= i < |rows| ==> States(b, rows[i])
      ensures r.Ok? ==> multiset(Current(rows, b)) == multiset(b.statements)
      ensures r.Ok? && multiset(old(Current(rows, b))) == multiset(b.statements) ==>
        rows == old(rows) && r.value == PublishResult(0, 0)
      ensures r.Ok? && multiset(old(Current(rows, b))) != multiset(b.statements) ==>
        && |rows| == |old(rows)| + |b.statements|
        && r.value == PublishResult(|b.statements|, |old(Current(rows, b))|)
      ensures r.Ok? ==> CompletedBy(b, now)
      ensures r.Ok? ==> forall key :: key in states && key != (b.subject, b.generator) ==>
        key in old(states) && states[key] == old(states)[key]
      ensures forall kind, others :: old(Exclusive(rows, kind, others)) && Guarded(b, kind, others, family) ==>
        Exclusive(rows, kind, others)
    {
      hide Exclusive, NotRivals, OneValue, ValidStatements, States;
      DraftsCovered(registry, b);
      RivalIsConflict(rows, b, family);
      if b.subject !in assets {
        return Err(ResourceNotFound);
      }
      if family != {} && HasConflict(b, family) {
        return Err(OtherGeneratorIsCurrent);
      }
      var fails: bool := *;
      if fails && !reliable {
        return Err(StorageFailed);
      }
      var key := (b.subject, b.generator);
      var startedAt := if key in states then states[key].startedAt else now;
      var current := Current(rows, b);
      if multiset(current) == multiset(b.statements) {
        r := Ok(PublishResult(0, 0));
      } else {
        Replace(b, now);
        r := Ok(PublishResult(|b.statements|, |current|));
        forall kind, others | old(Exclusive(rows, kind, others)) && Guarded(b, kind, others, family)
          ensures Exclusive(rows, kind, others)
        {
          ReplacingKeepsExclusive(old(rows), b, now, kind, others);
        }
      }
      states := states[key := Enrichment(b.fingerprint, EnrichmentStatus.Completed, startedAt, Some(now), now, None)];
      CurrentStates(rows, b);
      PublishedStates(b, old(rows), rows, Current(rows, b));
    }

    predicate HasConflict(b: Batch, family: set<string>)
      reads this
    {
      exists i :: 0 <= i < |rows| && Conflicts(b, family, rows[i])
    }

    ghost predicate CompletedBy(b: Batch, now: int)
      reads this
    {
      (b.subject, b.generator) in states
      && var state := states[(b.subject, b.generator)];
         state.status.Completed? && state.fingerprint == b.fingerprint && state.completedAt == Some(now) && state.error.None?
           && state.updatedAt == now
    }

    /** Retire row by row, then add. */
    method Replace(b: Batch, now: int)
      requires Valid() && ValidBatch(registry, b)
      modifies this`rows
      ensures Valid() && rows == Retired(old(rows), b) + NewRows(b, b.statements, now)
      ensures HistoryKept(old(rows), rows) && OthersKept(b, old(rows), rows)
      ensures Current(rows, b) == b.statements
    {
      hide OneValue, ValidBatch, Current, Replaces, HistoryKept, OthersKept, Retired, NewRows;
      ghost var before := rows;
      Retire(b);
      DraftsCovered(registry, b);
      ReplacingKeepsOneValue(registry, before, b, now);
      RetiredHasNone(before, b);
      CurrentOfNew(Retired(before, b), b, b.statements, now);
      NewRowsReplace(registry, b, now);
      ReplacementKeeps(before, b, NewRows(b, b.statements, now));
      assert [] + b.statements == b.statements;
      rows := rows + NewRows(b, b.statements, now);
    }

    /** Each current row of the batch's scope stops being current, in place. */
    method Retire(b: Batch)
      modifies this`rows
      ensures rows == Retired(old(rows), b)
    {
      for i := 0 to |rows|
        invariant |rows| == |old(rows)|
        invariant forall k :: 0 <= k < i ==> rows[k] == Retired(old(rows), b)[k]
        invariant forall k :: i <= k < |rows| ==> rows[k] == old(rows)[k]
      {
        if Replaces(b, rows[i]) {
          rows := rows[i := rows[i].(isCurrent := false)];
        }
      }
    }

    /** True hands the work to the caller; work that is done, or that someone is at, is not. */
    method MarkRunning(subject: AssetId, generator: Generator, fingerprint: string, now: int, staleAfter: int)
      returns (r: Result<bool, TableError>)
      requires Valid()
      modifies this`states
      ensures Valid()
      ensures r.Err? || r == Ok(false) ==> states == old(states)
      ensures reliable ==> (r.Ok? <==> subject in assets)
      ensures r.Ok? && (subject, generator) !in old(states) ==> r.value
      ensures r.Ok? && (subject, generator) in old(states) ==>
        var state := old(states)[(subject, generator)];
        match state.status
        case Completed => r.value <==> state.fingerprint != fingerprint
        case Running => r.value <==> state.updatedAt <= now - staleAfter
        case Failed => r.value
      ensures r == Ok(true) ==>
        states == old(states)[(subject, generator) := Enrichment(fingerprint, EnrichmentStatus.Running, now, None, now, None)]
    {
      if subject !in assets {
        return Err(ResourceNotFound);
      }
      var fails: bool := *;
      if fails && !reliable {
        return Err(StorageFailed);
      }
      var key := (subject, generator);
      if key in states {
        if states[key].status.Completed? && states[key].fingerprint == fingerprint {
          return Ok(false);
        }
        if states[key].status.Running? && states[key].updatedAt > now - staleAfter {
          return Ok(false);
        }
      }
      states := states[key := Enrichment(fingerprint, EnrichmentStatus.Running, now, None, now, None)];
      return Ok(true);
    }

    method MarkFailed(subject: AssetId, generator: Generator, fingerprint: string, now: int, error: string)
      returns (failed: Option<TableError>)
      requires Valid()
      modifies this`states
      ensures Valid()
      ensures failed.Some? ==> states == old(states)
      ensures reliable ==> (failed.None? <==> (subject, generator) in old(states))
      ensures failed.None? ==>
        && (subject, generator) in old(states)
        && states == old(states)[(subject, generator) :=
          Enrichment(fingerprint, EnrichmentStatus.Failed, old(states)[(subject, generator)].startedAt, None, now, Some(error))]
    {
      var key := (subject, generator);
      if key !in states {
        return Some(StateNotFound);
      }
      var fails: bool := *;
      if fails && !reliable {
        return Some(StorageFailed);
      }
      states := states[key := Enrichment(fingerprint, EnrichmentStatus.Failed, states[key].startedAt, None, now, Some(error))];
      return None;
    }
  }

  lemma NewRowsReplace(registry: map<PredicateName, PredicateDefinition>, b: Batch, now: int)
    requires ValidBatch(registry, b)
    ensures forall i :: 0 <= i < |b.statements| ==> Replaces(b, NewRows(b, b.statements, now)[i])
  {
    DraftsCovered(registry, b);
    forall i | 0 <= i < |b.statements| ensures Replaces(b, NewRows(b, b.statements, now)[i]) {
      assert b.statements[i] in b.statements;
    }
  }

  /** Publishing a batch again writes no row, and its work is no longer handed out. */
  method Republish(repository: ObservationRepository, b: Batch, first: int, second: int, third: int, staleAfter: int)
    returns (again: Result<PublishResult, TableError>, handedOut: Result<bool, TableError>)
    requires repository.Valid() && ValidBatch(repository.registry, b)
    modifies repository
    ensures again.Ok? ==> again.value == PublishResult(0, 0)
    ensures handedOut != Ok(true)
    ensures repository.reliable && b.subject in repository.assets ==> again.Ok? && handedOut == Ok(false)
  {
    hide ValidBatch, Current, OneValue;
    again, handedOut := Err(StorageFailed), Ok(false);
    var once := repository.Publish(b, first, {});
    if once.Ok? {
      again := repository.Publish(b, second, {});
      handedOut := repository.MarkRunning(b.subject, b.generator, b.fingerprint, third, staleAfter);
    }
  }

  /** One piece of work through its states: done for one input, it is handed out for any
      other; then kept from others while fresh; failed, it is handed out again. */
  method HandedOut(repository: ObservationRepository, b: Batch, changed: string, times: (int, int, int, int, int), staleAfter: int)
    returns (published: Result<PublishResult, TableError>, same: Result<bool, TableError>, other: Result<bool, TableError>,
             busy: Result<bool, TableError>, failed: Result<bool, TableError>)
    requires repository.Valid() && ValidBatch(repository.registry, b)
    modifies repository
    ensures repository.reliable && published.Ok? ==>
      && same == Ok(false)
      && (changed != b.fingerprint ==>
            && other == Ok(true)
            && (busy == Ok(false) <==> times.1 > times.2 - staleAfter)
            && failed == Ok(true))
  {
    hide ValidBatch, Current, OneValue, RivalStands, Stated, States;
    same, other, busy, failed := Ok(false), Ok(false), Ok(false), Ok(false);
    published := repository.Publish(b, times.0, {});
    if published.Ok? {
      same := repository.MarkRunning(b.subject, b.generator, b.fingerprint, times.1, staleAfter);
      other := repository.MarkRunning(b.subject, b.generator, changed, times.1, staleAfter);
      busy := repository.MarkRunning(b.subject, b.generator, changed, times.2, staleAfter);
      var _ := repository.MarkFailed(b.subject, b.generator, changed, times.3, "");
      failed := repository.MarkRunning(b.subject, b.generator, changed, times.4, staleAfter);
    }
  }
}
