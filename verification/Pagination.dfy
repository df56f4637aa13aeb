/** Keyset pagination of resources: each page is a filtered, ordered and limited query
    that starts after the position sealed in the cursor of the page before. */
module Pagination {
  import opened Prelude
  import opened Cursor

  type AssetId = Uuid

  const MAX_QUERY_LIMIT := 100
  const DEFAULT_RECENT_DAYS := 30
  /** A SHA-256 digest in hexadecimal. */
  const DIGEST_LENGTH := 64
  const DAY := 86_400_000_000

  datatype Asset = Asset(id: AssetId, createdAt: Instant, title: string)

  datatype QueryError =
    | InvalidLimit | DaysWithRange | InvalidDays | InvertedRange | DaysOutOfRange | BadCursor(error: CursorError)

  /** What the caller asks; `filters` stands for the text, provider, type, MIME and path conditions. */
  datatype Query = Query(
    operation: Operation, days: Option<int>, observedFrom: Option<Instant>, observedTo: Option<Instant>, filters: nat)

  /** What the fingerprint covers: the normalized query. */
  datatype Identity = Identity(
    operation: Operation, days: Option<nat>, observedFrom: Option<Instant>, observedTo: Option<Instant>, filters: nat)

  /** What a page query runs over: the times fixed by the first page, and where to go on. */
  datatype Window = Window(observedFrom: Option<Instant>, observedTo: Option<Instant>, snapshotTo: Instant, after: Option<Position>)

  datatype Page = Page(resources: seq<Asset>, nextCursor: Option<string>)

  /** What the environment gives: the codec, the query fingerprint, the database's
      collation (its order embedded in the reals), its match of filters, and the
      earliest representable time. */
  datatype Context = Context(
    codec: Codec, fingerprint: Identity -> string, rank: string -> real, matches: (nat, Asset) -> bool)
  {
    ghost predicate Valid() {
      && codec.Valid() && (forall id :: |fingerprint(id)| == DIGEST_LENGTH)
      && (forall s, t :: rank(s) == rank(t) ==> s == t)
    }

    /** The order of a listing: newest first, or by title; then by identity. */
    predicate Before(operation: Operation, a: Asset, b: Asset) {
      match operation
      case Recent => a.createdAt > b.createdAt || (a.createdAt == b.createdAt && a.id < b.id)
      case Search => rank(a.title) < rank(b.title) || (rank(a.title) == rank(b.title) && a.id < b.id)
    }

    /** The SQL condition that a row comes after a position. */
    predicate IsAfter(position: Position, r: Asset) {
      match position
      case ByTime(observedAt, id) => r.createdAt < observedAt || (r.createdAt == observedAt && r.id > id)
      case ByTitle(title, id) => rank(r.title) > rank(title) || (r.title == title && r.id > id)
    }

    /** The WHERE clause of a page. */
    predicate Selects(filters: nat, w: Window, r: Asset) {
      && (w.observedFrom.Some? ==> r.createdAt >= w.observedFrom.value)
      && (w.observedTo.Some? ==> r.createdAt < w.observedTo.value)
      && r.createdAt < w.snapshotTo
      && (w.after.Some? ==> IsAfter(w.after.value, r))
      && matches(filters, r)
    }

    function Where(filters: nat, w: Window): Asset -> bool { r => Selects(filters, w, r) }

    // ----- ORDER BY ... LIMIT --------------------------------------------------------------

    function Insert(operation: Operation, r: Asset, s: seq<Asset>): seq<Asset> {
      if s == [] || Before(operation, r, s[0]) then [r] + s else [s[0]] + Insert(operation, r, s[1..])
    }

    /** The rows that satisfy `keep`, in order. */
    function Ordered(operation: Operation, rows: seq<Asset>, keep: Asset -> bool): seq<Asset> {
      if rows == [] then []
      else if keep(rows[0]) then Insert(operation, rows[0], Ordered(operation, rows[1..], keep))
      else Ordered(operation, rows[1..], keep)
    }

    ghost predicate Sorted(operation: Operation, s: seq<Asset>) {
      forall i, j :: 0 <= i < j < |s| ==> Before(operation, s[i], s[j])
    }
  }

  function Take(s: seq<Asset>, n: nat): seq<Asset> { if |s| <= n then s else s[..n] }

  function PositionOf(operation: Operation, r: Asset): Position {
    match operation
    case Recent => ByTime(r.createdAt, r.id)
    case Search => ByTitle(r.title, r.id)
  }

  /** A table: identities are unique. */
  ghost predicate Keyed(rows: seq<Asset>) {
    forall i, j :: 0 <= i < j < |rows| ==> rows[i].id != rows[j].id
  }

  // ----- The order is total, and a sorted list of given rows is unique --------------------

  lemma {:induction false} InsertSorts(c: Context, operation: Operation, r: Asset, s: seq<Asset>)
    requires c.Valid() && c.Sorted(operation, s) && forall x :: x in s ==> x.id != r.id
    ensures c.Sorted(operation, c.Insert(operation, r, s))
    ensures forall x :: x in c.Insert(operation, r, s) <==> x == r || x in s
    decreases |s|
  {
    if s != [] && !c.Before(operation, r, s[0]) {
      InsertSorts(c, operation, r, s[1..]);
      assert s == [s[0]] + s[1..];
      assert forall x :: x in s[1..] ==> c.Before(operation, s[0], x);
      assert c.Before(operation, s[0], r);
    }
  }

  lemma {:induction false} OrderedSorts(c: Context, operation: Operation, rows: seq<Asset>, keep: Asset -> bool)
    requires c.Valid() && Keyed(rows)
    ensures c.Sorted(operation, c.Ordered(operation, rows, keep))
    ensures forall x :: x in c.Ordered(operation, rows, keep) <==> x in rows && keep(x)
    decreases |rows|
  {
    if rows != [] {
      OrderedSorts(c, operation, rows[1..], keep);
      assert rows == [rows[0]] + rows[1..];
      if keep(rows[0]) {
        InsertSorts(c, operation, rows[0], c.Ordered(operation, rows[1..], keep));
      }
    }
  }

  lemma EmptyOrNot(s: seq<Asset>)
    ensures s == [] || exists x :: x in s
  {
    assert s != [] ==> s[0] in s;
  }

  lemma {:induction false} SortedUnique(c: Context, operation: Operation, s: seq<Asset>, t: seq<Asset>)
    requires c.Sorted(operation, s) && c.Sorted(operation, t) && forall x :: x in s <==> x in t
    ensures s == t
    decreases |s|
  {
    EmptyOrNot(s);
    EmptyOrNot(t);
    if s != [] {
      assert s[0] in t && t[0] in s;
      assert s[0] == t[0];
      assert s == [s[0]] + s[1..] && t == [t[0]] + t[1..];
      HeadIsNotInTail(c, operation, s);
      HeadIsNotInTail(c, operation, t);
      assert forall x :: x in s[1..] <==> x in s && x != s[0];
      assert forall x :: x in t[1..] <==> x in t && x != t[0];
      SortedUnique(c, operation, s[1..], t[1..]);
    }
  }

  lemma HeadIsNotInTail(c: Context, operation: Operation, s: seq<Asset>)
    requires c.Sorted(operation, s) && s != []
    ensures s[0] !in s[1..]
  {
    assert forall x :: x in s[1..] ==> c.Before(operation, s[0], x);
  }

  // ----- One page ---------------------------------------------------------------------------

  /** In an ordered list, the rows after the position of one of its rows are those that
      follow it. */
  lemma AfterPosition(c: Context, operation: Operation, s: seq<Asset>, i: nat)
    requires c.Valid() && c.Sorted(operation, s) && i < |s|
    ensures forall x :: x in s ==> (c.IsAfter(PositionOf(operation, s[i]), x) <==> x in s[i + 1..])
  {
    forall x | x in s ensures c.IsAfter(PositionOf(operation, s[i]), x) <==> x in s[i + 1..] {
      var k :| 0 <= k < |s| && s[k] == x;
      if k > i {
        assert c.Before(operation, s[i], s[k]);
        assert s[i + 1..][k - i - 1] == x;
      } else {
        assert k < i ==> c.Before(operation, s[k], s[i]);
        assert !c.IsAfter(PositionOf(operation, s[i]), x);
        forall m | i < m < |s| ensures s[m] != x {
          assert c.Before(operation, s[k], s[m]);
        }
      }
    }
  }

  /** Queries that keep the same rows give the same list. */
  lemma SameRowsSameList(
    c: Context, operation: Operation, a: seq<Asset>, keepA: Asset -> bool, b: seq<Asset>, keepB: Asset -> bool)
    requires c.Valid() && Keyed(a) && Keyed(b) && forall r :: r in a && keepA(r) <==> r in b && keepB(r)
    ensures c.Ordered(operation, a, keepA) == c.Ordered(operation, b, keepB)
  {
    OrderedSorts(c, operation, a, keepA);
    OrderedSorts(c, operation, b, keepB);
    SortedUnique(c, operation, c.Ordered(operation, a, keepA), c.Ordered(operation, b, keepB));
  }

  /** The table may have gained rows since, but none that the snapshot would show. */
  ghost predicate SameBefore(a: seq<Asset>, b: seq<Asset>, snapshotTo: Instant) {
    forall r: Asset :: r.createdAt < snapshotTo ==> (r in a <==> r in b)
  }

  /** Going on after row i of a query, over a table that has only gained later rows,
      gives the rest of that query. */
  lemma RestOfTheQuery(
    c: Context, operation: Operation, filters: nat, first: Window, rows: seq<Asset>, later: seq<Asset>, i: nat)
    requires c.Valid() && Keyed(rows) && Keyed(later) && SameBefore(rows, later, first.snapshotTo) && first.after.None?
    requires i < |c.Ordered(operation, rows, c.Where(filters, first))|
    ensures
      var s := c.Ordered(operation, rows, c.Where(filters, first));
      c.Ordered(operation, later, c.Where(filters, first.(after := Some(PositionOf(operation, s[i]))))) == s[i + 1..]
  {
    var s := c.Ordered(operation, rows, c.Where(filters, first));
    var next := first.(after := Some(PositionOf(operation, s[i])));
    var rest := c.Ordered(operation, later, c.Where(filters, next));
    OrderedSorts(c, operation, rows, c.Where(filters, first));
    OrderedSorts(c, operation, later, c.Where(filters, next));
    AfterPosition(c, operation, s, i);
    assert c.Sorted(operation, s[i + 1..]);
    forall r ensures r in rest <==> r in s[i + 1..] {
      assert r in s[i + 1..] ==> r in s;
      assert c.Where(filters, next)(r) <==> c.Where(filters, first)(r) && c.IsAfter(next.after.value, r);
    }
    SortedUnique(c, operation, rest, s[i + 1..]);
  }

  // ----- The service ------------------------------------------------------------------------

  /** The checks every request makes, before it looks at the cursor. */
  function Normalize(q: Query): Result<Identity, QueryError> {
    var ranged := q.observedFrom.Some? || q.observedTo.Some?;
    if q.operation.Recent? && ranged && q.days.Some? then Err(DaysWithRange)
    else if q.observedFrom.Some? && q.observedTo.Some? && q.observedFrom.value >= q.observedTo.value then Err(InvertedRange)
    else if q.operation.Recent? && !ranged then
      var days := if q.days.Some? then q.days.value else DEFAULT_RECENT_DAYS;
      if days <= 0 then Err(InvalidDays) else Ok(Identity(q.operation, Some(days), None, None, q.filters))
    else Ok(Identity(q.operation, None, q.observedFrom, q.observedTo, q.filters))
  }

  /** The window of a first page. */
  function Open(c: Context, id: Identity, now: Instant): Result<Window, QueryError> {
    if id.days.Some? && now - id.days.value * DAY < 0 then Err(DaysOutOfRange)
    else
      var observedFrom: Option<Instant> := if id.days.Some? then Some(now - id.days.value * DAY) else id.observedFrom;
      var snapshotTo := if id.observedTo.Some? && id.observedTo.value < now then id.observedTo.value else now;
      Ok(Window(observedFrom, id.observedTo, snapshotTo, None))
  }

  /** The window a cursor holds, if it belongs to this query. */
  function Resume(c: Context, id: Identity, cursor: string): Result<Window, QueryError> {
    match c.codec.Decode(cursor)
    case Err(e) => Err(BadCursor(e))
    case Ok(p) =>
      if p.operation != id.operation then Err(BadCursor(OtherOperation))
      else if p.fingerprint != c.fingerprint(id) then Err(BadCursor(OtherQuery))
      else if p.observedFrom.Some? && p.observedTo.Some? && p.observedFrom.value >= p.observedTo.value then Err(InvertedRange)
      else if p.position.ByTime? != id.operation.Recent? then Err(BadCursor(Malformed))
      else Ok(Window(p.observedFrom, p.observedTo, p.snapshotTo, Some(p.position)))
  }

  function Seal(c: Context, id: Identity, w: Window, last: Asset): string {
    c.codec.Encode(Payload(
      id.operation, c.fingerprint(id), w.observedFrom, w.observedTo, w.snapshotTo, PositionOf(id.operation, last)))
  }

  /** The one ordered query over a window. */
  function Listing(c: Context, id: Identity, w: Window, rows: seq<Asset>): seq<Asset> {
    c.Ordered(id.operation, rows, c.Where(id.filters, w))
  }

  function Fetch(c: Context, id: Identity, w: Window, limit: nat, rows: seq<Asset>): Page
    requires limit > 0
  {
    PageOf(c, id, w, Listing(c, id, w, rows), limit)
  }

  /** One row more than asked for is read, to know whether there is another page. */
  function PageOf(c: Context, id: Identity, w: Window, s: seq<Asset>, limit: nat): Page
    requires limit > 0
  {
    var fetched := Take(s, limit + 1);
    var resources := Take(fetched, limit);
    Page(resources, if |fetched| > limit then Some(Seal(c, id, w, resources[|resources| - 1])) else None)
  }

  /** `list_resource_page` and `search_resource_page` */
  function RequestPage(c: Context, q: Query, cursor: Option<string>, limit: int, now: Instant, rows: seq<Asset>)
    : Result<Page, QueryError>
  {
    if limit <= 0 || limit > MAX_QUERY_LIMIT then Err(InvalidLimit)
    else
      match Normalize(q)
      case Err(e) => Err(e)
      case Ok(id) =>
        match (if cursor.None? then Open(c, id, now) else Resume(c, id, cursor.value))
        case Err(e) => Err(e)
        case Ok(w) => Ok(Fetch(c, id, w, limit, rows))
  }

  // ----- What a query asks for ---------------------------------------------------------------

  /** On the query and the clock: which rows a request at `now` is about. */
  predicate Answers(c: Context, q: Query, now: Instant, r: Asset) {
    && c.matches(q.filters, r) && r.createdAt < now
    && (q.observedFrom.Some? ==> r.createdAt >= q.observedFrom.value)
    && (q.observedTo.Some? ==> r.createdAt < q.observedTo.value)
    && (q.operation == Recent && q.observedFrom == q.observedTo == None ==>
          r.createdAt >= now - (if q.days.Some? then q.days.value else 30) * 86_400_000_000)
  }

  /** Newest first, or by the collation of titles; ties by identity. */
  predicate InOrder(c: Context, operation: Operation, s: seq<Asset>) {
    && (operation == Recent ==> forall i, j :: 0 <= i < j < |s| ==>
          s[i].createdAt > s[j].createdAt || (s[i].createdAt == s[j].createdAt && s[i].id < s[j].id))
    && (operation == Search ==> forall i, j :: 0 <= i < j < |s| ==>
          c.rank(s[i].title) < c.rank(s[j].title) || (c.rank(s[i].title) == c.rank(s[j].title) && s[i].id < s[j].id))
  }

  /** What the first request accepts. */
  predicate Askable(q: Query, limit: int, now: Instant) {
    && 0 < limit <= 100
    && (q.observedFrom.Some? && q.observedTo.Some? ==> q.observedFrom.value < q.observedTo.value)
    && (q.operation == Recent && (q.observedFrom.Some? || q.observedTo.Some?) ==> q.days.None?)
    && (q.operation == Recent && q.observedFrom == q.observedTo == None ==>
          var days := if q.days.Some? then q.days.value else 30; 0 < days && days * 86_400_000_000 <= now)
  }

  lemma OpenedAnswers(c: Context, q: Query, id: Identity, w: Window, now: Instant, r: Asset)
    requires Normalize(q) == Ok(id) && Open(c, id, now) == Ok(w)
    ensures c.Selects(id.filters, w, r) <==> Answers(c, q, now, r)
  {
  }

  /** A first page, exactly when it is given and of which list: the first `limit` rows. */
  lemma FirstRequest(c: Context, q: Query, limit: int, now: Instant, rows: seq<Asset>) returns (s: seq<Asset>)
    requires c.Valid() && Keyed(rows)
    ensures RequestPage(c, q, None, limit, now, rows).Ok? <==> Askable(q, limit, now)
    ensures Askable(q, limit, now) ==>
      var page := RequestPage(c, q, None, limit, now, rows).value;
      && (forall r :: r in s <==> r in rows && Answers(c, q, now, r)) && InOrder(c, q.operation, s)
      && page.resources == (if |s| <= limit then s else s[..limit]) && (page.nextCursor.None? <==> |s| <= limit)
  {
    s := [];
    AskableOpens(c, q, limit, now);
    if Askable(q, limit, now) {
      var id := Normalize(q).value;
      var w := Open(c, id, now).value;
      s := Listing(c, id, w, rows);
      ListingIs(c, q, id, w, now, rows);
      hide Normalize, Open, Askable, Answers, InOrder, Listing, Seal;
    }
  }

  lemma AskableOpens(c: Context, q: Query, limit: int, now: Instant)
    ensures Askable(q, limit, now) <==>
      (0 < limit <= MAX_QUERY_LIMIT && Normalize(q).Ok? && Open(c, Normalize(q).value, now).Ok?)
  {
  }

  lemma ListingIs(c: Context, q: Query, id: Identity, w: Window, now: Instant, rows: seq<Asset>)
    requires c.Valid() && Keyed(rows) && Normalize(q) == Ok(id) && Open(c, id, now) == Ok(w)
    ensures var s := Listing(c, id, w, rows);
      (forall r :: r in s <==> r in rows && Answers(c, q, now, r)) && InOrder(c, q.operation, s)
  {
    OrderedSorts(c, id.operation, rows, c.Where(id.filters, w));
    hide Keyed;
    assert id.operation == q.operation;
    forall r: Asset ensures c.Where(id.filters, w)(r) <==> Answers(c, q, now, r) {
      OpenedAnswers(c, q, id, w, now, r);
    }
    hide Normalize, Open, Answers, Context.Where, Context.Selects;
  }

  // ----- A walk ---------------------------------------------------------------------------------

  /** One request of a walk: its limit, the clock and the table as they are then. */
  datatype Visit = Visit(limit: int, now: Instant, rows: seq<Asset>)

  /** Following the cursors, from this one on. */
  function Walk(c: Context, q: Query, cursor: Option<string>, visits: seq<Visit>): Result<Page, QueryError>
    decreases |visits|
  {
    if visits == [] then Ok(Page([], cursor))
    else
      match RequestPage(c, q, cursor, visits[0].limit, visits[0].now, visits[0].rows)
      case Err(e) => Err(e)
      case Ok(page) =>
        if page.nextCursor.None? then Ok(page)
        else Joined(page, Walk(c, q, page.nextCursor, visits[1..]))
  }

  function Joined(page: Page, more: Result<Page, QueryError>): Result<Page, QueryError> {
    match more
    case Err(e) => Err(e)
    case Ok(rest) => Ok(Page(page.resources + rest.resources, rest.nextCursor))
  }

  lemma WalkStep(c: Context, q: Query, cursor: Option<string>, visits: seq<Visit>, page: Page)
    requires visits != []
    requires RequestPage(c, q, cursor, visits[0].limit, visits[0].now, visits[0].rows) == Ok(page)
    ensures Walk(c, q, cursor, visits)
      == if page.nextCursor.None? then Ok(page) else Joined(page, Walk(c, q, page.nextCursor, visits[1..]))
  {
    hide RequestPage, Joined;
  }

  function Total(visits: seq<Visit>): int {
    if visits == [] then 0 else visits[0].limit + Total(visits[1..])
  }

  /** Later requests see the table as it was below the snapshot, plus any later rows. */
  ghost predicate Steady(visits: seq<Visit>, rows: seq<Asset>, snapshotTo: Instant) {
    forall v :: v in visits ==>
      0 < v.limit <= MAX_QUERY_LIMIT && Keyed(v.rows) && SameBefore(rows, v.rows, snapshotTo)
  }

  predicate Fits(c: Context, id: Identity, w: Window, r: Asset) {
    |Seal(c, id, w, r)| <= MAX_CURSOR_LENGTH
  }

  /** Every cursor that a walk from row i on takes back is short enough: those of the last
      rows of its pages, up to the end of the list or of the walk. */
  predicate AllFit(c: Context, id: Identity, w: Window, s: seq<Asset>, i: nat, visits: seq<Visit>)
    decreases |visits|
  {
    visits == [] || 0 == i || i >= |s|
    || (Fits(c, id, w, s[i - 1])
        && (visits[0].limit <= 0 || AllFit(c, id, w, s, i + visits[0].limit, visits[1..])))
  }

  /** What a walk that has given i rows of s, with room for n more, ends with. */
  function Rest(c: Context, id: Identity, w: Window, s: seq<Asset>, i: nat, n: nat): Page
    requires i <= |s| && i + n > 0
  {
    if i + n >= |s| then Page(s[i..], None) else Page(s[i..i + n], Some(Seal(c, id, w, s[i + n - 1])))
  }

  lemma ResumesOwnCursor(c: Context, id: Identity, w: Window, last: Asset)
    requires c.Valid() && |Seal(c, id, w, last)| <= MAX_CURSOR_LENGTH
    requires w.observedFrom.Some? && w.observedTo.Some? ==> w.observedFrom.value < w.observedTo.value
    ensures Resume(c, id, Seal(c, id, w, last)) == Ok(w.(after := Some(PositionOf(id.operation, last))))
  {
    hide Codec.Encode, Codec.Decode;
    CursorRoundTrip(c.codec, Payload(
      id.operation, c.fingerprint(id), w.observedFrom, w.observedTo, w.snapshotTo, PositionOf(id.operation, last)));
  }

  /** One page further: what is fetched beyond row i, over a table that has only gained
      later rows, is the next stretch of the one list. */
  lemma FetchesStretch(c: Context, id: Identity, first: Window, rows: seq<Asset>, v: Visit, i: nat)
    requires c.Valid() && first.after.None? && 0 < v.limit && Keyed(rows) && Keyed(v.rows)
    requires SameBefore(rows, v.rows, first.snapshotTo)
    requires 0 < i <= |Listing(c, id, first, rows)|
    ensures
      var s := Listing(c, id, first, rows);
      Fetch(c, id, first.(after := Some(PositionOf(id.operation, s[i - 1]))), v.limit, v.rows)
        == Rest(c, id, first, s, i, v.limit)
  {
    var s := Listing(c, id, first, rows);
    RestOfTheQuery(c, id.operation, id.filters, first, rows, v.rows, i - 1);
    hide Codec.Encode, Context.Ordered, PageOf, Rest, Keyed, SameBefore, PositionOf;
    PageOfStretch(c, id, first, first.(after := Some(PositionOf(id.operation, s[i - 1]))), s, i, v.limit);
  }

  lemma PageOfStretch(c: Context, id: Identity, first: Window, w: Window, s: seq<Asset>, i: nat, limit: nat)
    requires limit > 0 && i <= |s| && w == first.(after := w.after)
    ensures PageOf(c, id, w, s[i..], limit) == Rest(c, id, first, s, i, limit)
  {
    hide Codec.Encode;
    if i + limit < |s| {
      assert s[i..][..limit + 1][..limit] == s[i..i + limit];
    }
  }

  lemma NextPage(c: Context, q: Query, id: Identity, first: Window, rows: seq<Asset>, v: Visit, i: nat)
    requires c.Valid() && Normalize(q) == Ok(id) && first.after.None? && Keyed(rows) && Keyed(v.rows)
    requires first.observedFrom.Some? && first.observedTo.Some? ==> first.observedFrom.value < first.observedTo.value
    requires SameBefore(rows, v.rows, first.snapshotTo) && 0 < v.limit <= MAX_QUERY_LIMIT
    requires 0 < i <= |Listing(c, id, first, rows)| && Fits(c, id, first, Listing(c, id, first, rows)[i - 1])
    ensures
      var s := Listing(c, id, first, rows);
      RequestPage(c, q, Some(Seal(c, id, first, s[i - 1])), v.limit, v.now, v.rows) == Ok(Rest(c, id, first, s, i, v.limit))
  {
    hide Codec.Encode, Codec.Decode, Normalize, Resume, Fetch, Keyed, SameBefore, Listing;
    ResumesOwnCursor(c, id, first, Listing(c, id, first, rows)[i - 1]);
    FetchesStretch(c, id, first, rows, v, i);
  }

  /** Going on from row i, whatever the limits and clocks, and whatever is inserted at or
      after the snapshot: the next rows of the one list, in order, each once. */
  lemma {:induction false} WalkOn(
    c: Context, q: Query, id: Identity, first: Window, rows: seq<Asset>, visits: seq<Visit>, i: nat)
    requires c.Valid() && Normalize(q) == Ok(id) && first.after.None? && Keyed(rows)
    requires first.observedFrom.Some? && first.observedTo.Some? ==> first.observedFrom.value < first.observedTo.value
    requires Steady(visits, rows, first.snapshotTo)
    requires 0 < i < |Listing(c, id, first, rows)|
    requires 0 <= Total(visits)
    ensures
      var s := Listing(c, id, first, rows);
      Walk(c, q, Some(Seal(c, id, first, s[i - 1])), visits)
        == if AllFit(c, id, first, s, i, visits) then Ok(Rest(c, id, first, s, i, Total(visits))) else Err(BadCursor(TooLong))
    decreases |visits|
  {
    var s := Listing(c, id, first, rows);
    hide Codec.Encode, Codec.Decode, RequestPage, Normalize, Seal, Fits, Keyed, SameBefore, Listing;
    if visits == [] {
      assert s[i..i] == [];
    } else {
      var v := visits[0];
      assert v in visits && visits == [v] + visits[1..];
      if !Fits(c, id, first, s[i - 1]) {
        LongCursorStops(c, q, id, first, s[i - 1], visits);
      } else {
        NextPage(c, q, id, first, rows, v, i);
        TotalAtLeast(visits[1..], rows, first.snapshotTo);
        if i + v.limit < |s| {
          RestJoins(c, id, first, s, i, v.limit, Total(visits[1..]));
          WalkOn(c, q, id, first, rows, visits[1..], i + v.limit);
        }
      }
    }
  }

  lemma RestJoins(c: Context, id: Identity, w: Window, s: seq<Asset>, i: nat, n: nat, m: nat)
    requires 0 < n && i + n < |s|
    ensures Rest(c, id, w, s, i, n + m).resources == Rest(c, id, w, s, i, n).resources + Rest(c, id, w, s, i + n, m).resources
    ensures Rest(c, id, w, s, i, n + m).nextCursor == Rest(c, id, w, s, i + n, m).nextCursor
  {
  }

  lemma {:induction false} TotalAtLeast(visits: seq<Visit>, rows: seq<Asset>, snapshotTo: Instant)
    requires Steady(visits, rows, snapshotTo)
    ensures |visits| <= Total(visits)
    decreases |visits|
  {
    if visits != [] {
      assert visits[0] in visits;
      TotalAtLeast(visits[1..], rows, snapshotTo);
    }
  }

  /** A cursor too long to be taken back stops the walk at the next request. */
  lemma LongCursorStops(c: Context, q: Query, id: Identity, w: Window, last: Asset, visits: seq<Visit>)
    requires c.Valid() && !Fits(c, id, w, last) && Normalize(q) == Ok(id)
    requires visits != [] && 0 < visits[0].limit <= MAX_QUERY_LIMIT
    ensures Walk(c, q, Some(Seal(c, id, w, last)), visits) == Err(BadCursor(TooLong))
  {
    hide Codec.Encode, Codec.Decode, Fetch;
    CursorRoundTrip(c.codec, Payload(
      id.operation, c.fingerprint(id), w.observedFrom, w.observedTo, w.snapshotTo, PositionOf(id.operation, last)));
  }

  lemma FetchesFirst(c: Context, id: Identity, w: Window, limit: nat, rows: seq<Asset>)
    requires limit > 0
    ensures Fetch(c, id, w, limit, rows) == Rest(c, id, w, Listing(c, id, w, rows), 0, limit)
  {
    var s := Listing(c, id, w, rows);
    assert s[0..] == s;
    PageOfStretch(c, id, w, w, s, 0, limit);
  }

  /** A listing's cursors always fit. */
  lemma TimeCursorFits(c: Context, id: Identity, w: Window, r: Asset)
    requires c.Valid() && id.operation.Recent?
    ensures Fits(c, id, w, r)
  {
    CursorFitsExactlyWhen(c.codec, Payload(
      id.operation, c.fingerprint(id), w.observedFrom, w.observedTo, w.snapshotTo, PositionOf(id.operation, r)));
  }

  lemma {:induction false} TimeCursorsAllFit(
    c: Context, id: Identity, w: Window, s: seq<Asset>, i: nat, visits: seq<Visit>)
    requires c.Valid() && id.operation.Recent?
    ensures AllFit(c, id, w, s, i, visits)
    decreases |visits|
  {
    hide Fits;
    if visits != [] && 0 < i < |s| {
      TimeCursorFits(c, id, w, s[i - 1]);
      if visits[0].limit > 0 {
        TimeCursorsAllFit(c, id, w, s, i + visits[0].limit, visits[1..]);
      }
    }
  }

  /** A title of more than 3040 characters makes a search cursor too long. */
  lemma LongTitleDoesNotFit(c: Context, id: Identity, w: Window, r: Asset)
    requires c.Valid() && id.operation.Search? && |r.title| > 3040
    ensures !Fits(c, id, w, r)
  {
    CursorFitsExactlyWhen(c.codec, Payload(
      id.operation, c.fingerprint(id), w.observedFrom, w.observedTo, w.snapshotTo, PositionOf(id.operation, r)));
  }

  /** Pagination refines the one query: following the cursors from a first page, with any
      limit per page, a moving clock and inserts at or after the snapshot, gives the
      ordered rows that the first request's window selects, in order, none twice and none
      left out; and the walk ends, with no cursor, as soon as there was room for all. It
      does so exactly if the cursors it takes back fit, which a listing's always do. */
  lemma WalkRefinesQuery(c: Context, q: Query, id: Identity, w: Window, visits: seq<Visit>)
    requires c.Valid() && Normalize(q) == Ok(id) && visits != [] && Open(c, id, visits[0].now) == Ok(w)
    requires Keyed(visits[0].rows) && Steady(visits, visits[0].rows, w.snapshotTo)
    ensures Total(visits) > 0 && visits[0].limit > 0
    ensures
      var s := Listing(c, id, w, visits[0].rows);
      && Walk(c, q, None, visits)
         == (if AllFit(c, id, w, s, visits[0].limit, visits[1..]) then Ok(Rest(c, id, w, s, 0, Total(visits)))
             else Err(BadCursor(TooLong)))
      && (id.operation.Recent? ==> Walk(c, q, None, visits) == Ok(Rest(c, id, w, s, 0, Total(visits))))
      && InOrder(c, q.operation, s)
      && forall r :: r in s <==> r in visits[0].rows && Answers(c, q, visits[0].now, r)
  {
    var rows := visits[0].rows;
    ListingIs(c, q, id, w, visits[0].now, rows);
    hide Codec.Encode, Codec.Decode, Listing, InOrder, Answers, AllFit, Rest, Walk, Steady;
    WalkFirst(c, q, id, w, visits);
    if id.operation.Recent? {
      TimeCursorsAllFit(c, id, w, Listing(c, id, w, rows), visits[0].limit, visits[1..]);
    }
  }

  /** The first long title that ends a page, with more to come, ends a search. */
  lemma LongTitleEndsSearch(c: Context, q: Query, id: Identity, w: Window, visits: seq<Visit>)
    requires c.Valid() && Normalize(q) == Ok(id) && id.operation.Search? && |visits| > 1
    requires Open(c, id, visits[0].now) == Ok(w)
    requires Keyed(visits[0].rows) && Steady(visits, visits[0].rows, w.snapshotTo)
    requires 0 < visits[0].limit < |Listing(c, id, w, visits[0].rows)|
    requires |Listing(c, id, w, visits[0].rows)[visits[0].limit - 1].title| > 3040
    ensures Walk(c, q, None, visits) == Err(BadCursor(TooLong))
  {
    hide Codec.Encode, Codec.Decode, Fits, Listing, Steady, Walk;
    var s := Listing(c, id, w, visits[0].rows);
    LongTitleDoesNotFit(c, id, w, s[visits[0].limit - 1]);
    WalkFirst(c, q, id, w, visits);
  }

  lemma WalkFirst(c: Context, q: Query, id: Identity, w: Window, visits: seq<Visit>)
    requires c.Valid() && Normalize(q) == Ok(id) && visits != [] && Open(c, id, visits[0].now) == Ok(w)
    requires Keyed(visits[0].rows) && Steady(visits, visits[0].rows, w.snapshotTo)
    ensures Total(visits) > 0 && visits[0].limit > 0
    ensures
      var s := Listing(c, id, w, visits[0].rows);
      Walk(c, q, None, visits)
        == if AllFit(c, id, w, s, visits[0].limit, visits[1..]) then Ok(Rest(c, id, w, s, 0, Total(visits)))
           else Err(BadCursor(TooLong))
  {
    hide Codec.Encode, Codec.Decode, Fits, Listing, RequestPage, Normalize, Open, Seal, Steady, Walk, Keyed, AllFit, Total;
    var v, rows := visits[0], visits[0].rows;
    var s := Listing(c, id, w, rows);
    SteadyTail(visits, rows, w.snapshotTo);
    FirstPage(c, q, id, w, v);
    WalkStep(c, q, None, visits, Rest(c, id, w, s, 0, v.limit));
    OpenedRange(c, q, id, w, v.now);
    if v.limit < |s| {
      RestJoins(c, id, w, s, 0, v.limit, Total(visits[1..]));
      WalkOn(c, q, id, w, rows, visits[1..], v.limit);
    } else {
      AllGivenFits(c, id, w, s, v.limit, visits[1..]);
    }
  }

  lemma AllGivenFits(c: Context, id: Identity, w: Window, s: seq<Asset>, i: nat, visits: seq<Visit>)
    requires i >= |s|
    ensures AllFit(c, id, w, s, i, visits)
  {
    hide Fits;
  }

  lemma SteadyTail(visits: seq<Visit>, rows: seq<Asset>, snapshotTo: Instant)
    requires visits != [] && Steady(visits, rows, snapshotTo)
    ensures 0 < visits[0].limit <= MAX_QUERY_LIMIT && Steady(visits[1..], rows, snapshotTo)
    ensures 0 <= Total(visits[1..]) && Total(visits) == visits[0].limit + Total(visits[1..])
  {
    assert visits[0] in visits;
    TotalAtLeast(visits[1..], rows, snapshotTo);
  }

  lemma OpenedRange(c: Context, q: Query, id: Identity, w: Window, now: Instant)
    requires Normalize(q) == Ok(id) && Open(c, id, now) == Ok(w)
    ensures w.after.None?
    ensures w.observedFrom.Some? && w.observedTo.Some? ==> w.observedFrom.value < w.observedTo.value
  {
  }

  lemma FirstPage(c: Context, q: Query, id: Identity, w: Window, v: Visit)
    requires Normalize(q) == Ok(id) && Open(c, id, v.now) == Ok(w) && 0 < v.limit <= MAX_QUERY_LIMIT
    ensures RequestPage(c, q, None, v.limit, v.now, v.rows) == Ok(Rest(c, id, w, Listing(c, id, w, v.rows), 0, v.limit))
  {
    hide Codec.Encode, Listing;
    FetchesFirst(c, id, w, v.limit, v.rows);
  }

  /** Two callers with different limits, clocks and later rows see the same listing, if
      the same window was opened. */
  lemma WalksAgree(c: Context, q: Query, id: Identity, w: Window, a: seq<Visit>, b: seq<Visit>)
    requires c.Valid() && Normalize(q) == Ok(id) && a != [] && b != []
    requires Open(c, id, a[0].now) == Ok(w) && Open(c, id, b[0].now) == Ok(w)
    requires Keyed(a[0].rows) && Steady(a, a[0].rows, w.snapshotTo) && Steady(b, b[0].rows, w.snapshotTo)
    requires Keyed(b[0].rows) && SameBefore(a[0].rows, b[0].rows, w.snapshotTo)
    requires Walk(c, q, None, a).Ok? && Walk(c, q, None, a).value.nextCursor.None?
    requires Walk(c, q, None, b).Ok? && Walk(c, q, None, b).value.nextCursor.None?
    ensures Walk(c, q, None, a).value.resources == Walk(c, q, None, b).value.resources
  {
    SameRowsSameList(
      c, id.operation, a[0].rows, c.Where(id.filters, w), b[0].rows, c.Where(id.filters, w));
    hide Codec.Encode, Codec.Decode, Context.Ordered, AllFit, Walk, Steady, Keyed, SameBefore;
    WalkFirst(c, q, id, w, a);
    WalkFirst(c, q, id, w, b);
  }

  /** A cursor is taken only by the query it was handed out for. */
  lemma ForeignCursorRefused(c: Context, q: Query, id: Identity, other: Identity, w: Window, last: Asset, v: Visit)
    requires c.Valid() && Normalize(q) == Ok(id) && 0 < v.limit <= MAX_QUERY_LIMIT && id != other
    requires c.fingerprint(id) != c.fingerprint(other)
    requires |Seal(c, other, w, last)| <= MAX_CURSOR_LENGTH
    ensures RequestPage(c, q, Some(Seal(c, other, w, last)), v.limit, v.now, v.rows)
      == Err(BadCursor(if id.operation != other.operation then OtherOperation else OtherQuery))
  {
    hide Codec.Encode, Codec.Decode, Fetch;
    CursorRoundTrip(c.codec, Payload(
      other.operation, c.fingerprint(other), w.observedFrom, w.observedTo, w.snapshotTo, PositionOf(other.operation, last)));
  }
}
