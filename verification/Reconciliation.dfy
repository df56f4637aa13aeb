/** One synchronisation run as a function of the world it starts from: decide on
    each fact (reading its content at most once), write the decision, and only
    after a complete scan turn sources off. */
module Reconciliation {
  import opened Prelude
  import opened WorldModel
  import opened Matcher

  /** What opening a fact's content yields. */
  datatype Body = Bytes(evidence: Evidence) | Disappeared | Unreadable

  datatype Observed = Observed(fact: Fact, body: Body)

  /** The stored rows, the supply of unused identifiers, and the clock. */
  datatype World = World(repo: Repo, nextId: Id, clock: int)

  datatype Outcome = Done | Skipped | Raised(e: Error)

  datatype Verdict = Act(d: Decision) | Skip | Raise(e: Error)

  datatype Mode = FullAuthoritative | IncrementalNonAuthoritative

  datatype Tombstone = Tombstone(provider: string, externalId: string)

  /** A discovery batch: the facts its iterator yields before it ends, and
      what it ends by raising, if anything. */
  datatype Batch = Batch(
    provider: string,
    mode: Mode,
    items: seq<Observed>,
    interruption: Option<Error>,
    nextCheckpoint: Option<string>,
    tombstones: seq<Tombstone>)

  datatype RunEnd = Completed | Incomplete(disappeared: nat) | Failed(e: Error)

  const CONTENT_REQUIREMENTS: set<RequirementType> := {ContentHash, ContentEvidence}

  // ----- One fact ------------------------------------------------------------

  predicate NeedsContent(o: Observed, r: Repo, next: Id) {
    var m := Match(o.fact, r, next);
    m.Ok? && CONTENT_REQUIREMENTS * m.value.requirements != {}
  }

  /** The fact the final decision is about: with content evidence when it was read. */
  function Deciding(o: Observed, r: Repo, next: Id): Fact {
    if NeedsContent(o, r, next) && o.body.Bytes? then o.fact.WithEvidence(o.body.evidence) else o.fact
  }

  function Decide(o: Observed, r: Repo, next: Id): Verdict {
    if NeedsContent(o, r, next) && o.body.Disappeared? then Skip
    else if NeedsContent(o, r, next) && o.body.Unreadable? then Raise(ReadFailed)
    else
      match Match(Deciding(o, r, next), r, next)
      case Err(e) => Raise(e)
      case Ok(d) => if d.requirements != {} then Raise(UnsatisfiedRequirements) else Act(d)
  }

  function Step(w: World, o: Observed): (World, Outcome) {
    match Decide(o, w.repo, w.nextId)
    case Skip => (w, Skipped)
    case Raise(e) => (w, Raised(e))
    case Act(d) =>
      match ExecuteMany(w.repo, [d])
      case Err(e) => (w, Raised(e))
      case Ok(r) => (World(r, w.nextId + 3, w.clock), Done)
  }

  // ----- The scan ------------------------------------------------------------

  datatype ScanResult = ScanResult(w: World, seen: set<string>, disappeared: nat, raised: Option<Error>)

  function SeenBy(f: Fact): set<string> {
    if f.externalId.Some? then {f.externalId.value} else {}
  }

  function Scan(w: World, provider: string, items: seq<Observed>): ScanResult
    decreases |items|
  {
    if items == [] then ScanResult(w, {}, 0, None)
    else if items[0].fact.provider != provider then ScanResult(w, {}, 0, Some(MixedProviders))
    else
      var (w', outcome) := Step(w, items[0]);
      if outcome.Raised? then ScanResult(w', SeenBy(items[0].fact), 0, Some(outcome.e))
      else
        var rest := Scan(w', provider, items[1..]);
        ScanResult(rest.w, SeenBy(items[0].fact) + rest.seen,
                   rest.disappeared + (if outcome.Skipped? then 1 else 0), rest.raised)
  }

  // ----- Turning sources off ---------------------------------------------------

  function Deactivated(s: Source, now: int): Source {
    s.(isActive := false, deletedAt := Some(now))
  }

  /** One decision per source, each with its own reading of the clock. */
  function Deactivations(sources: seq<Source>, clock: int): (ds: seq<Decision>)
    ensures |ds| == |sources|
    decreases |sources|
  {
    if sources == [] then []
    else [Decision([DeactivatingSource(Deactivated(sources[0], clock))], {}, Unexplained)] + Deactivations(sources[1..], clock + 1)
  }

  function DeactivateAll(w: World, sources: seq<Source>): (World, Option<Error>) {
    match ExecuteMany(w.repo, Deactivations(sources, w.clock))
    case Err(e) => (World(w.repo, w.nextId, w.clock + |sources|), Some(e))
    case Ok(r) => (World(r, w.nextId, w.clock + |sources|), None)
  }

  function TombstoneTargets(r: Repo, provider: string, tombstones: seq<Tombstone>): Result<seq<Source>, Error>
    decreases |tombstones|
  {
    if tombstones == [] then Ok([])
    else if tombstones[0].provider != provider then Err(ForeignTombstone)
    else
      match FindSource(r, tombstones[0].provider, tombstones[0].externalId)
      case Err(e) => Err(e)
      case Ok(found) =>
        match TombstoneTargets(r, provider, tombstones[1..])
        case Err(e) => Err(e)
        case Ok(rest) => Ok(if found.Some? && found.value.isActive then [found.value] + rest else rest)
  }

  predicate WasSeen(s: Source, seen: set<string>) {
    s.externalId.Some? && s.externalId.value in seen
  }

  function Unseen(sources: seq<Source>, seen: set<string>): (missing: seq<Source>)
    ensures forall s :: s in missing <==> s in sources && !WasSeen(s, seen)
    decreases |sources|
  {
    if sources == [] then []
    else
      var rest := Unseen(sources[1..], seen);
      if WasSeen(sources[0], seen) then rest else [sources[0]] + rest
  }

  // ----- A whole run -----------------------------------------------------------

  /** What follows a scan that reached its end with every body readable. */
  function Reconcile(w: World, b: Batch, seen: set<string>): (World, RunEnd) {
    match TombstoneTargets(w.repo, b.provider, b.tombstones)
    case Err(e) => (w, Failed(e))
    case Ok(targets) =>
      var (w1, failed) := DeactivateAll(w, targets);
      if failed.Some? then (w1, Failed(failed.value))
      else if b.mode.IncrementalNonAuthoritative? then (w1, Completed)
      else
        var (w2, failed2) := DeactivateAll(w1, Unseen(ActiveSources(w1.repo, b.provider), seen));
        if failed2.Some? then (w2, Failed(failed2.value)) else (w2, Completed)
  }

  function RunBatch(w: World, b: Batch): (World, RunEnd) {
    var s := Scan(w, b.provider, b.items);
    if s.raised.Some? then (s.w, Failed(s.raised.value))
    else if b.interruption.Some? then (s.w, Failed(b.interruption.value))
    else if s.disappeared > 0 then (s.w, Incomplete(s.disappeared))
    else Reconcile(s.w, b, s.seen)
  }

  /** One read is always enough: evidence never leaves a requirement behind. */
  lemma OneReadSuffices(f: Fact, e: Evidence, r: Repo, next: Id)
    ensures Match(f.WithEvidence(e), r, next).Ok? ==> Match(f.WithEvidence(e), r, next).value.requirements == {}
  {
  }
}
