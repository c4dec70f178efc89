/**
 Listing tables page by page: the query and its page loop, the cursor text, and the walk a
 client makes by feeding `next_cursor` back (backend/crates/service/src/sql_schema/executor.rs,
 input.rs). The catalog is the rows of information_schema.tables in (schema, name) order.
 */
module SchemaWalk {
  import opened Wrappers
  import opened Text
  import opened Json
  import opened SchemaOutput
  import opened SchemaResponse

  const MAX_LIMIT := 100
  const MIN_MAX_BYTES: nat := 1024

  datatype CatalogRow = CatalogRow(namespace: string, name: string, tableType: string)

  predicate KeyLess(ns1: string, name1: string, ns2: string, name2: string) {
    Less(ns1, ns2) || (ns1 == ns2 && Less(name1, name2))
  }

  predicate RowLess(a: CatalogRow, b: CatalogRow) {
    KeyLess(a.namespace, a.name, b.namespace, b.name)
  }

  ghost predicate Sorted(rows: seq<CatalogRow>) {
    forall i, j | 0 <= i < j < |rows| :: RowLess(rows[i], rows[j])
  }

  // ---------- the query ----------

  predicate Listed(row: CatalogRow) {
    && row.namespace != "pg_catalog" && row.namespace != "information_schema"
    && (row.tableType == "BASE TABLE" || row.tableType == "VIEW")
  }

  /** No cursor, or strictly after it. */
  predicate After(row: CatalogRow, ns: string, table: string) {
    (ns == "" && table == "") || KeyLess(ns, table, row.namespace, row.name)
  }

  function Matching(catalog: seq<CatalogRow>, ns: string, table: string): seq<CatalogRow> {
    if catalog == [] then []
    else
      (if Listed(catalog[0]) && After(catalog[0], ns, table) then [catalog[0]] else [])
      + Matching(catalog[1..], ns, table)
  }

  function Take(rows: seq<CatalogRow>, n: nat): seq<CatalogRow> {
    if |rows| <= n then rows else rows[..n]
  }

  /** Every table a full listing shows, in order. */
  function Listing(catalog: seq<CatalogRow>): seq<CatalogRow> {
    Matching(catalog, "", "")
  }

  // ---------- one page ----------

  function TableKind(tableType: string): string {
    if EqFold(Trim(tableType), "VIEW") then "view" else "table"
  }

  function Summary(row: CatalogRow): TableSummary {
    TableSummary(row.namespace, row.name, TableKind(row.tableType))
  }

  function Summaries(rows: seq<CatalogRow>): seq<TableSummary> {
    seq(|rows|, i requires 0 <= i < |rows| => Summary(rows[i]))
  }

  function BuildPage(rows: seq<CatalogRow>, limit: nat): Output {
    var tables := Summaries(Take(rows, limit));
    var hasMore := |rows| > limit;
    Output(MODE_TABLES, tables, None,
           Some(Page(limit, |tables|, hasMore, if hasMore then LastCursor(tables) else "")),
           false, 0, None, 0)
  }

  method ListPage(rows: seq<CatalogRow>, limit: nat) returns (out: Output)
    ensures out == BuildPage(rows, limit)
  {
    var tables: seq<TableSummary> := [];
    var page := Page(limit, 0, false, "");
    for i := 0 to |rows|
      invariant tables == Summaries(Take(rows[..i], limit))
      invariant page == Page(limit, 0, i > limit, LastCursor(tables))
    {
      assert rows[..i + 1] == rows[..i] + [rows[i]];
      if |tables| >= limit {
        page := page.(hasMore := true);
        continue;
      }
      page := page.(nextCursor := JoinCursor(rows[i].namespace, rows[i].name));
      tables := tables + [Summary(rows[i])];
    }
    assert rows[..|rows|] == rows;
    page := page.(returned := |tables|);
    if !page.hasMore {
      page := page.(nextCursor := "");
    }
    out := Output(MODE_TABLES, tables, None, Some(page), false, 0, None, 0);
  }

  // ---------- the cursor ----------

  predicate HasForbidden(s: string) {
    '\0' in s || '\r' in s || '\n' in s
  }

  function NormalizeCursor(text: string): Result<string, Error> {
    var cursor := Trim(text);
    if HasForbidden(cursor) then Err(Validation) else Ok(cursor)
  }

  function SplitCursor(cursor: string): (string, string) {
    match SplitOnce(cursor, '.')
    case Some((ns, table)) => (ns, table)
    case None => ("", cursor)
  }

  ghost predicate CursorSafe(ns: string, table: string) {
    && '.' !in ns
    && NoOuterWhitespace(JoinCursor(ns, table))
    && !HasForbidden(ns) && !HasForbidden(table)
  }

  /** A key survives the cursor text exactly when its schema has no dot, the text has no outer
      whitespace, and neither part has NUL, CR or LF. */
  lemma CursorSurvives(ns: string, table: string)
    ensures var r := NormalizeCursor(JoinCursor(ns, table));
            CursorSafe(ns, table) <==> r.Ok? && r.value == JoinCursor(ns, table) && SplitCursor(r.value) == (ns, table)
  {
    var text := JoinCursor(ns, table);
    TrimIdentity(text);
    assert forall c :: c in text <==> c in ns || c == '.' || c in table;
    SplitOnceSound(text, '.');
    if '.' !in ns {
      SplitOnceJoin(ns, '.', table);
    }
  }

  // ---------- one request ----------

  datatype Request = Request(limit: nat, maxBytes: nat, latencyMs: nat)

  ghost predicate Valid(rq: Request) {
    1 <= rq.limit <= MAX_LIMIT && MIN_MAX_BYTES <= rq.maxBytes <= MAX_MAX_BYTES && Digits(rq.latencyMs) <= 20
  }

  function Fetch(catalog: seq<CatalogRow>, cursor: string, limit: nat): seq<CatalogRow> {
    var (ns, table) := SplitCursor(cursor);
    Take(Matching(catalog, ns, table), limit + 1)
  }

  /** The response to `mode=tables` with this cursor text. */
  function Respond(catalog: seq<CatalogRow>, text: string, rq: Request): Result<Output, Error> {
    match NormalizeCursor(text)
    case Err(e) => Err(e)
    case Ok(cursor) =>
      Ok(Finalize(BuildPage(Fetch(catalog, cursor, rq.limit), rq.limit).(latencyMs := rq.latencyMs), rq.maxBytes))
  }

  // ---------- what a cursor selects ----------

  lemma RowLessAsymmetric(a: CatalogRow, b: CatalogRow)
    requires RowLess(a, b)
    ensures !RowLess(b, a) && !RowLess(a, a)
  {
    LessTotal(a.namespace, b.namespace);
    LessTotal(a.name, b.name);
    LessTotal(a.namespace, a.namespace);
    LessTotal(a.name, a.name);
  }

  /** Everything past the cursor, when all of the catalog is. */
  lemma {:induction false} MatchingAll(catalog: seq<CatalogRow>, row: CatalogRow)
    requires forall r <- catalog :: RowLess(row, r)
    ensures Matching(catalog, row.namespace, row.name) == Listing(catalog)
  {
    if catalog != [] {
      assert RowLess(row, catalog[0]);
      MatchingAll(catalog[1..], row);
    }
  }

  /** The listing is the tables and views outside the metadata schemas. */
  lemma {:induction false} ListingIs(catalog: seq<CatalogRow>)
    ensures forall r :: r in Listing(catalog) <==>
              && r in catalog && r.namespace !in {"pg_catalog", "information_schema"}
              && r.tableType in {"BASE TABLE", "VIEW"}
  {
    if catalog != [] {
      ListingIs(catalog[1..]);
      assert forall r :: r in catalog <==> r == catalog[0] || r in catalog[1..];
    }
  }

  lemma {:induction false} ListingRows(catalog: seq<CatalogRow>)
    requires Sorted(catalog)
    ensures forall r <- Listing(catalog) :: r in catalog
    ensures Sorted(Listing(catalog))
  {
    if catalog != [] {
      ListingRows(catalog[1..]);
      var rest := Listing(catalog[1..]);
      forall r <- rest ensures RowLess(catalog[0], r) {
        var i :| 0 <= i < |catalog[1..]| && catalog[1..][i] == r;
        assert catalog[i + 1] == r;
      }
    }
  }

  /** A listed view is shown as a view, anything else as a table. */
  lemma ListedKind(row: CatalogRow)
    requires row.tableType in {"BASE TABLE", "VIEW"}
    ensures Summary(row) == TableSummary(row.namespace, row.name, if row.tableType == "VIEW" then "view" else "table")
  {
    TrimIdentity(row.tableType);
    hide Trim;
    assert |row.tableType| == if row.tableType == "VIEW" then 4 else 10;
    assert |Lower(row.tableType)| == |row.tableType| && |Lower("VIEW")| == 4;
  }

  lemma RowLessIrreflexive(a: CatalogRow)
    ensures !RowLess(a, a)
  {
    LessTotal(a.namespace, a.namespace);
    LessTotal(a.name, a.name);
  }

  /** Past a listed first row lies the listing of the others. */
  lemma MatchingAfterFirst(catalog: seq<CatalogRow>)
    requires Sorted(catalog) && catalog != [] && catalog[0].name != ""
    ensures Matching(catalog, catalog[0].namespace, catalog[0].name) == Listing(catalog[1..])
  {
    var row, rest := catalog[0], catalog[1..];
    RowLessIrreflexive(row);
    hide Less;
    forall r <- rest ensures RowLess(row, r) {
      var k :| 0 <= k < |rest| && rest[k] == r;
      assert catalog[k + 1] == r;
    }
    MatchingAll(rest, row);
  }

  /** The cursor of the i-th listed table selects exactly the tables after it. */
  lemma {:induction false} MatchingSuffix(catalog: seq<CatalogRow>, i: nat)
    requires Sorted(catalog) && i < |Listing(catalog)|
    requires Listing(catalog)[i].name != ""
    ensures var row := Listing(catalog)[i];
            Matching(catalog, row.namespace, row.name) == Listing(catalog)[i + 1..]
  {
    hide RowLess, Listed;
    var row, rest := Listing(catalog)[i], catalog[1..];
    ListingRows(catalog);
    assert Sorted(rest);
    if !Listed(catalog[0]) {
      MatchingSuffix(rest, i);
    } else {
      assert Listing(catalog) == [catalog[0]] + Listing(rest);
      if i == 0 {
        MatchingAfterFirst(catalog);
      } else {
        MatchingSuffix(rest, i - 1);
        FirstIsNotAfter(catalog, row, i);
      }
    }
  }

  lemma FirstIsNotAfter(catalog: seq<CatalogRow>, row: CatalogRow, i: nat)
    requires Sorted(Listing(catalog)) && 0 < i < |Listing(catalog)| && Listing(catalog)[i] == row && row.name != ""
    ensures !After(Listing(catalog)[0], row.namespace, row.name)
  {
    hide Matching;
    RowLessAsymmetric(Listing(catalog)[0], row);
  }

  // ---------- the walk ----------

  datatype WalkState = WalkState(visited: seq<TableSummary>, cursor: string, done: bool)

  /** Feed `next_cursor` back until a page says there is no more (or is refused). */
  ghost function Walk(catalog: seq<CatalogRow>, requests: seq<Request>): WalkState {
    if requests == [] then WalkState([], "", false)
    else
      Continue(catalog, Walk(catalog, requests[..|requests| - 1]), requests[|requests| - 1])
  }

  ghost function Continue(catalog: seq<CatalogRow>, w: WalkState, rq: Request): WalkState {
    if w.done then w
    else
      match Respond(catalog, w.cursor, rq)
      case Err(_) => w.(done := true)
      case Ok(out) =>
        WalkState(w.visited + out.tables, NextCursor(out), out.page == None || !out.page.value.hasMore)
  }

  ghost function NextCursor(out: Output): string {
    if out.page.Some? then out.page.value.nextCursor else ""
  }

  /** The cursor text after n listed tables. */
  ghost function CursorAt(listing: seq<CatalogRow>, n: nat): string
    requires n <= |listing|
  {
    if n == 0 then "" else JoinCursor(listing[n - 1].namespace, listing[n - 1].name)
  }

  ghost predicate KeepsATable(catalog: seq<CatalogRow>, text: string, rq: Request) {
    var r := Respond(catalog, text, rq);
    r.Ok? && r.value.tables == [] ==>
      Fetch(catalog, NormalizeCursor(text).value, rq.limit) == []
  }

  ghost predicate Walkable(catalog: seq<CatalogRow>) {
    && Sorted(catalog)
    && forall r <- Listing(catalog) :: CursorSafe(r.namespace, r.name) && r.name != ""
  }

  lemma FetchAt(catalog: seq<CatalogRow>, n: nat, limit: nat)
    requires Walkable(catalog) && n <= |Listing(catalog)|
    ensures var r := NormalizeCursor(CursorAt(Listing(catalog), n));
            r.Ok? && Fetch(catalog, r.value, limit) == Take(Listing(catalog)[n..], limit + 1)
  {
    var listing := Listing(catalog);
    if n == 0 {
      hide Matching, CursorSafe, Sorted;
      assert SplitOnce("", '.') == None;
      assert listing[0..] == listing;
    } else {
      hide Matching, SplitCursor, NormalizeCursor, CursorSafe, JoinCursor, Sorted;
      var row := listing[n - 1];
      assert row in listing;
      CursorSurvives(row.namespace, row.name);
      MatchingSuffix(catalog, n - 1);
    }
  }

  /** What finalizing leaves of a fetched page. */
  lemma FinalizedPage(rows: seq<CatalogRow>, limit: nat, latencyMs: nat, maxBytes: nat)
    ensures var out := Finalize(BuildPage(rows, limit).(latencyMs := latencyMs), maxBytes);
            && out.page.Some?
            && var k := |out.tables|;
            && k <= limit && k <= |rows|
            && out.tables == Summaries(rows[..k])
            && out.page.value.returned == k && out.page.value.limit == limit && out.latencyMs == latencyMs
            && (out.page.value.hasMore <==> k < |rows|)
            && out.page.value.nextCursor == if k < |rows| then LastCursor(out.tables) else ""
  {
    hide Finalize;
    var built := BuildPage(rows, limit).(latencyMs := latencyMs);
    FinalizeShape(built, maxBytes);
    var out := Finalize(built, maxBytes);
    assert out.tables == built.tables[..|out.tables|];
    assert built.tables[..|built.tables|] == built.tables;
  }

  lemma SummariesSplit(listing: seq<CatalogRow>, n: nat, k: nat)
    requires n + k <= |listing|
    ensures Summaries(listing[..n]) + Summaries(listing[n..n + k]) == Summaries(listing[..n + k])
  {
  }

  lemma RespondAt(catalog: seq<CatalogRow>, n: nat, rq: Request)
    requires Walkable(catalog) && n <= |Listing(catalog)|
    ensures var rows := Take(Listing(catalog)[n..], rq.limit + 1);
            var r := Respond(catalog, CursorAt(Listing(catalog), n), rq);
            && r == Ok(Finalize(BuildPage(rows, rq.limit).(latencyMs := rq.latencyMs), rq.maxBytes))
            && (KeepsATable(catalog, CursorAt(Listing(catalog), n), rq) ==> r.value.tables == [] ==> rows == [])
  {
    FetchAt(catalog, n, rq.limit);
    hide Finalize, Matching, BuildPage, Fetch, Walkable, NormalizeCursor, CursorAt;
  }

  /** Of the rows fetched at position n, the first k and what follows them. */
  lemma RowsAt(listing: seq<CatalogRow>, n: nat, limit: nat, k: nat)
    requires n <= |listing|
    ensures var rows := Take(listing[n..], limit + 1);
            k <= limit && k <= |rows| ==>
              && n + k <= |listing| && rows[..k] == listing[n..n + k]
              && (k < |rows| <==> n + k < |listing|)
              && (rows == [] <==> n == |listing|)
              && (k > 0 ==> LastCursor(Summaries(rows[..k])) == CursorAt(listing, n + k))
  {
    var rows := Take(listing[n..], limit + 1);
    if 0 < k <= limit && k <= |rows| {
      assert rows[..k] == listing[n..n + k];
      assert Summaries(rows[..k])[k - 1] == Summary(listing[n + k - 1]);
    }
  }

  /** One page from position n: the next tables in order, resuming exactly where they end. */
  lemma PageAt(catalog: seq<CatalogRow>, n: nat, rq: Request)
    requires Walkable(catalog) && n <= |Listing(catalog)| && rq.limit >= 1
    requires KeepsATable(catalog, CursorAt(Listing(catalog), n), rq)
    ensures var listing := Listing(catalog);
            var r := Respond(catalog, CursorAt(listing, n), rq);
            && r.Ok? && r.value.page.Some?
            && var k := |r.value.tables|;
            && n + k <= |listing|
            && r.value.tables == Summaries(listing[n..n + k])
            && (n < |listing| ==> k > 0)
            && r.value.page.value.returned == k
            && (r.value.page.value.hasMore <==> n + k < |listing|)
            && (n + k < |listing| ==> NextCursor(r.value) == CursorAt(listing, n + k))
            && (n + k == |listing| ==> NextCursor(r.value) == "")
  {
    hide Finalize, Matching, BuildPage, Respond, Fetch, Walkable, KeepsATable, Summaries, Take, LastCursor;
    var listing := Listing(catalog);
    var rows := Take(listing[n..], rq.limit + 1);
    RespondAt(catalog, n, rq);
    FinalizedPage(rows, rq.limit, rq.latencyMs, rq.maxBytes);
    var out := Finalize(BuildPage(rows, rq.limit).(latencyMs := rq.latencyMs), rq.maxBytes);
    RowsAt(listing, n, rq.limit, |out.tables|);
  }

  /** Every table visited, once, in order. */
  ghost predicate Finished(listing: seq<CatalogRow>, w: WalkState) {
    w.done && w.visited == Summaries(listing) && w.cursor == ""
  }

  /** A prefix visited, at least one table a request, and the cursor naming the last of them. */
  ghost predicate Underway(listing: seq<CatalogRow>, w: WalkState, requests: nat) {
    && !w.done
    && requests <= |w.visited| <= |listing|
    && w.visited == Summaries(listing[..|w.visited|])
    && w.cursor == CursorAt(listing, |w.visited|)
    && (requests > 0 ==> |w.visited| < |listing|)
  }

  lemma ContinueAt(catalog: seq<CatalogRow>, w: WalkState, rq: Request, requests: nat)
    requires Walkable(catalog) && rq.limit >= 1 && KeepsATable(catalog, w.cursor, rq)
    requires Underway(Listing(catalog), w, requests)
    ensures var w' := Continue(catalog, w, rq);
            Finished(Listing(catalog), w') || Underway(Listing(catalog), w', requests + 1)
  {
    hide Respond, Matching, Walkable, KeepsATable, Summary, JoinCursor;
    var listing := Listing(catalog);
    var n := |w.visited|;
    PageAt(catalog, n, rq);
    var out := Respond(catalog, w.cursor, rq).value;
    SummariesSplit(listing, n, |out.tables|);
    assert listing[..|listing|] == listing;
  }

  ghost predicate EveryPageKeepsATable(catalog: seq<CatalogRow>, requests: seq<Request>) {
    forall i | 0 <= i < |requests| ::
      requests[i].limit >= 1 && KeepsATable(catalog, Walk(catalog, requests[..i]).cursor, requests[i])
  }

  /** The walk visits every table exactly once, in (namespace, name) order, and ends by the time
      there are as many requests as tables, for any limits and any trimming that leaves each page
      a table. */
  lemma {:induction false} WalkVisitsEveryTableOnce(catalog: seq<CatalogRow>, requests: seq<Request>)
    requires Walkable(catalog) && EveryPageKeepsATable(catalog, requests)
    ensures var listing, w := Listing(catalog), Walk(catalog, requests);
            && (Finished(listing, w) || Underway(listing, w, |requests|))
            && (requests != [] && |requests| >= |listing| ==> Finished(listing, w))
  {
    hide Continue, Matching;
    if requests != [] {
      var init := requests[..|requests| - 1];
      forall i | 0 <= i < |init| ensures init[..i] == requests[..i] {}
      WalkVisitsEveryTableOnce(catalog, init);
      var before := Walk(catalog, init);
      if !before.done {
        ContinueAt(catalog, before, requests[|requests| - 1], |init|);
      }
      DoneStays(catalog, before, requests[|requests| - 1]);
    }
  }

  lemma DoneStays(catalog: seq<CatalogRow>, w: WalkState, rq: Request)
    ensures w.done ==> Continue(catalog, w, rq) == w
  {
  }

  // ---------- when every page keeps a table ----------

  ghost predicate OrdinaryRow(r: CatalogRow) {
    StrLen(r.namespace) + StrLen(r.name) <= 256
  }

  lemma KindLen(tableType: string, kind: string)
    requires kind == TableKind(tableType)
    ensures StrLen(kind) <= 7
  {
    if kind == "view" { PlainLen(kind); } else { PlainLen(kind); }
  }

  lemma ModeLen(mode: string)
    requires mode == MODE_TABLES
    ensures StrLen(mode) <= 8
  {
    PlainLen(mode);
  }

  /** Identifiers of at most 63 bytes (each byte possibly escaped) always leave a table on the page. */
  lemma OrdinaryRowsKeepATable(catalog: seq<CatalogRow>, n: nat, rq: Request)
    requires Walkable(catalog) && n <= |Listing(catalog)| && Valid(rq)
    requires forall r <- Listing(catalog) :: OrdinaryRow(r)
    ensures KeepsATable(catalog, CursorAt(Listing(catalog), n), rq)
  {
    FetchAt(catalog, n, rq.limit);
    var rows := Take(Listing(catalog)[n..], rq.limit + 1);
    assert forall i | 0 <= i < |rows| :: rows[i] == Listing(catalog)[n + i] && rows[i] in Listing(catalog);
    hide Matching, NormalizeCursor, Fetch, CursorAt, Finalize;
    if rows != [] {
      OrdinaryBuiltPage(rows, rq);
    }
  }

  lemma OrdinaryBuiltPage(rows: seq<CatalogRow>, rq: Request)
    requires rows != [] && Valid(rq) && forall r <- rows :: OrdinaryRow(r)
    ensures Finalize(BuildPage(rows, rq.limit).(latencyMs := rq.latencyMs), rq.maxBytes).tables != []
  {
    hide EncodedLen, CharsLen, Finalize, TableKind, LastCursor;
    var built := BuildPage(rows, rq.limit).(latencyMs := rq.latencyMs);
    forall t <- built.tables ensures Ordinary(t) {
      var i :| 0 <= i < |built.tables| && built.tables[i] == t;
      assert rows[i] in rows;
      KindLen(rows[i].tableType, t.kind);
    }
    ModeLen(built.mode);
    OrdinaryCursor(built.tables);
    EmptyLen();
    DigitsMonotone(rq.limit, 100);
    assert Digits(100) == 3;
    PageKeepsATable(built, rq.maxBytes);
  }

  lemma EmptyLen()
    ensures StrLen("") == 2
  {
  }

  /** The walk over a catalog of ordinary identifiers, whatever limits and budgets the requests choose. */
  lemma {:induction false} OrdinaryWalk(catalog: seq<CatalogRow>, requests: seq<Request>)
    requires Walkable(catalog)
    requires forall r <- Listing(catalog) :: OrdinaryRow(r)
    requires forall rq <- requests :: Valid(rq)
    ensures EveryPageKeepsATable(catalog, requests)
    ensures requests != [] && |requests| >= |Listing(catalog)| ==> Finished(Listing(catalog), Walk(catalog, requests))
  {
    hide Respond, Continue, Matching;
    forall i | 0 <= i < |requests|
      ensures requests[i].limit >= 1 && KeepsATable(catalog, Walk(catalog, requests[..i]).cursor, requests[i])
    {
      assert requests[i] in requests;
      var init := requests[..i];
      assert forall j | 0 <= j < i :: init[j] in requests;
      OrdinaryWalk(catalog, init);
      WalkVisitsEveryTableOnce(catalog, init);
      var w := Walk(catalog, init);
      OrdinaryRowsKeepATable(catalog, if w.done then 0 else |w.visited|, requests[i]);
    }
    WalkVisitsEveryTableOnce(catalog, requests);
  }

  // ---------- when a page loses every table ----------

  /** The response with its first k tables, as the list loop leaves it. */
  function PageWith(o: Output, k: nat): Output
    requires k <= |o.tables|
  {
    if k == |o.tables| then o
    else
      var tables := o.tables[..k];
      o.(tables := tables,
         page := if o.page == None then None
                 else Some(o.page.value.(hasMore := true, returned := k, nextCursor := LastCursor(tables))))
  }

  /** What the loop reports with k tables left: the length of that page but for the field itself, and
      the digits of the report before. */
  function ReportWith(o: Output, k: nat): nat
    requires k <= |o.tables|
    decreases |o.tables| - k
  {
    if k == |o.tables| then o.returnedBytes else FrameLen(PageWith(o, k)) + Digits(ReportWith(o, k + 1))
  }

  ghost predicate FitsWith(o: Output, maxBytes: nat, k: nat) {
    1 <= k <= |o.tables| && ReportWith(o, k) <= maxBytes
  }

  /** With at least one table dropped and one left, the report is within the budget. */
  ghost predicate SomeFewerFit(o: Output, maxBytes: nat) {
    exists k: nat :: k < |o.tables| && FitsWith(o, maxBytes, k)
  }

  function LoopState(o: Output, k: nat): Output
    requires k <= |o.tables|
  {
    PageWith(o, k).(returnedBytes := ReportWith(o, k))
  }

  lemma LoopStep(o: Output, k: nat)
    requires 0 < k <= |o.tables|
    ensures Measure(DropLastTable(LoopState(o, k))) == LoopState(o, k - 1)
  {
    hide FrameLen;
    assert PageWith(o, k).tables[..k - 1] == o.tables[..k - 1];
    FrameIgnoresReport(PageWith(o, k - 1), ReportWith(o, k));
  }

  /** The loop takes the longest page that fits, or empties it. */
  lemma {:induction false} TrimFrom(o: Output, maxBytes: nat, k: nat)
    requires k <= |o.tables|
    ensures var r := TrimTables(LoopState(o, k), maxBytes);
            && |r.tables| <= k && r == LoopState(o, |r.tables|)
            && (r.tables != [] ==> FitsWith(o, maxBytes, |r.tables|))
            && forall j: nat | |r.tables| < j <= k :: !FitsWith(o, maxBytes, j)
    decreases k
  {
    hide FrameLen, LastCursor;
    if k > 0 && ReportWith(o, k) > maxBytes {
      LoopStep(o, k);
      TrimFrom(o, maxBytes, k - 1);
    }
  }

  lemma TrimLeavesATable(o: Output, maxBytes: nat)
    requires o.table == None && o.returnedBytes > maxBytes
    ensures TrimPayload(o, maxBytes).tables != [] <==> SomeFewerFit(o, maxBytes)
    ensures |TrimPayload(o, maxBytes).tables| < |o.tables| || o.tables == []
  {
    hide FrameLen, LastCursor;
    assert TrimDetail(o, maxBytes) == o;
    TrimFrom(o, maxBytes, |o.tables|);
    assert LoopState(o, |o.tables|) == o;
    assert !FitsWith(o, maxBytes, |o.tables|);
  }

  /** What the first trim of a page leaves: the longest page, short of the whole, whose report is within
      the budget, or none. */
  lemma FirstTrimIsLongest(o: Output, maxBytes: nat)
    requires o.table == None && EncodedLen(o) > maxBytes
    ensures var start, r := Measure(o).(truncated := true), FirstTrim(o, maxBytes);
            && |r.tables| <= |o.tables| && r == LoopState(start, |r.tables|)
            && (r.tables != [] ==> |r.tables| < |o.tables| && FitsWith(start, maxBytes, |r.tables|))
            && forall j: nat | |r.tables| < j <= |o.tables| :: !FitsWith(start, maxBytes, j)
  {
    hide FrameLen, LastCursor;
    var start := Measure(o).(truncated := true);
    assert TrimDetail(start, maxBytes) == start == LoopState(start, |o.tables|);
    TrimFrom(start, maxBytes, |o.tables|);
  }

  /** A page of tables is emptied exactly when it does not fit as built, and either no shorter page
      fits, or the guidance then does not fit beside those that do and, as the second trim drops at
      least one table more, no page shorter still fits. */
  lemma PageEmptiedIff(o: Output, maxBytes: nat)
    requires o.table == None && o.tables != []
    ensures Finalize(o, maxBytes).tables == []
            <==> && EncodedLen(o) > maxBytes
                 && (|| !SomeFewerFit(Measure(o).(truncated := true), maxBytes)
                     || (&& Guided(o, maxBytes).returnedBytes > maxBytes
                         && !SomeFewerFit(Guided(o, maxBytes).(more := None), maxBytes)))
  {
    hide EncodedLen, SomeFewerFit;
    if EncodedLen(o) > maxBytes {
      TrimLeavesATable(Measure(o).(truncated := true), maxBytes);
      TrimKeepsTruncated(Measure(o).(truncated := true), maxBytes);
      assert FirstTrim(o, maxBytes).table == None;
      assert Guided(o, maxBytes).tables == FirstTrim(o, maxBytes).tables;
      if Guided(o, maxBytes).returnedBytes > maxBytes {
        TrimLeavesATable(Guided(o, maxBytes).(more := None), maxBytes);
      }
    }
  }

  /** A page of one table keeps it exactly when the response fits as it was built. */
  lemma OneTablePage(o: Output, maxBytes: nat)
    requires |o.tables| == 1 && o.table == None
    ensures Finalize(o, maxBytes).tables != [] <==> EncodedLen(o) <= maxBytes
  {
    hide EncodedLen;
    PageEmptiedIff(o, maxBytes);
  }

  /** A page cut down to one table keeps it exactly when the guidance fits beside it. */
  lemma LastTableLostToGuidance(o: Output, maxBytes: nat)
    requires o.table == None && EncodedLen(o) > maxBytes && |FirstTrim(o, maxBytes).tables| == 1
    ensures Finalize(o, maxBytes).tables == [] <==> Guided(o, maxBytes).returnedBytes > maxBytes
  {
    hide EncodedLen;
    if o.tables != [] {
      TrimLeavesATable(Measure(o).(truncated := true), maxBytes);
      hide SomeFewerFit;
      PageEmptiedIff(o, maxBytes);
      assert |Guided(o, maxBytes).tables| == 1;
      NothingFewerThanOne(Guided(o, maxBytes).(more := None), maxBytes);
    } else {
      TrimLeavesATable(Measure(o).(truncated := true), maxBytes);
    }
  }

  lemma NothingFewerThanOne(o: Output, maxBytes: nat)
    requires |o.tables| == 1
    ensures !SomeFewerFit(o, maxBytes)
  {
  }

  // ---------- what an emptied page does to the walk ----------

  /** An emptied page says there is more but names no table, so the walk is back at the start with
      what it had visited. */
  lemma EmptiedPageRestarts(catalog: seq<CatalogRow>, w: WalkState, rq: Request)
    ensures !w.done && rq.limit >= 1 && !KeepsATable(catalog, w.cursor, rq) ==>
              && Respond(catalog, w.cursor, rq).Ok?
              && var out := Respond(catalog, w.cursor, rq).value;
              && out.page.Some? && out.page.value.hasMore && NextCursor(out) == ""
              && Continue(catalog, w, rq) == WalkState(w.visited, "", false)
  {
    hide EncodedLen, Fetch, NormalizeCursor, Finalize;
    if !w.done && rq.limit >= 1 && !KeepsATable(catalog, w.cursor, rq) {
      var rows := Fetch(catalog, NormalizeCursor(w.cursor).value, rq.limit);
      FinalizedPage(rows, rq.limit, rq.latencyMs, rq.maxBytes);
      assert w.visited + [] == w.visited;
    }
  }

  /** From there, a request whose first page keeps a table visits tables already visited. */
  lemma RestartVisitsAgain(catalog: seq<CatalogRow>, w: WalkState, requests: nat, rq: Request, next: Request)
    requires Walkable(catalog) && Underway(Listing(catalog), w, requests) && w.visited != []
    requires rq.limit >= 1 && !KeepsATable(catalog, w.cursor, rq)
    requires next.limit >= 1 && KeepsATable(catalog, "", next)
    ensures var again := Continue(catalog, Continue(catalog, w, rq), next).visited;
            |again| > |w.visited| && again[..|w.visited|] == w.visited && again[|w.visited|] == again[0]
  {
    hide Respond, Walkable, KeepsATable, Matching;
    EmptiedPageRestarts(catalog, w, rq);
    PageAt(catalog, 0, next);
  }

  /** The walk that repeats one request n times. */
  ghost function Repeating(catalog: seq<CatalogRow>, rq: Request, n: nat): WalkState {
    Walk(catalog, seq(n, _ => rq))
  }

  lemma RepeatOnce(catalog: seq<CatalogRow>, rq: Request, n: nat)
    ensures Repeating(catalog, rq, 0) == WalkState([], "", false)
    ensures Repeating(catalog, rq, n + 1) == Continue(catalog, Repeating(catalog, rq, n), rq)
  {
    hide Continue;
    assert seq(n + 1, _ => rq)[..n] == seq(n, _ => rq);
  }

  lemma {:induction false} RunningSoFar(catalog: seq<CatalogRow>, rq: Request, i: nat, n: nat)
    requires i <= n && !Repeating(catalog, rq, n).done
    ensures !Repeating(catalog, rq, i).done
    decreases n - i
  {
    hide Continue, Repeating;
    if i < n {
      RepeatOnce(catalog, rq, n - 1);
      DoneStays(catalog, Repeating(catalog, rq, n - 1), rq);
      RunningSoFar(catalog, rq, i, n - 1);
    }
  }

  lemma ContinueByCursor(catalog: seq<CatalogRow>, a: WalkState, b: WalkState, rq: Request)
    requires !a.done && !b.done && a.cursor == b.cursor
    ensures var (a', b') := (Continue(catalog, a, rq), Continue(catalog, b, rq));
            a'.cursor == b'.cursor && a'.done == b'.done
  {
    hide Respond;
  }

  /** Once the page after m requests is emptied, the walk goes round the cursors it had by then. */
  lemma {:induction false} GoesRound(catalog: seq<CatalogRow>, rq: Request, m: nat, n: nat) returns (j: nat)
    requires rq.limit >= 1 && !Repeating(catalog, rq, m).done
    requires !KeepsATable(catalog, Repeating(catalog, rq, m).cursor, rq)
    ensures !Repeating(catalog, rq, n).done
    ensures j <= m && Repeating(catalog, rq, n).cursor == Repeating(catalog, rq, j).cursor
  {
    hide Continue, Repeating, KeepsATable;
    if n == 0 {
      j := 0;
      RunningSoFar(catalog, rq, 0, m);
    } else {
      var i := GoesRound(catalog, rq, m, n - 1);
      RepeatOnce(catalog, rq, n - 1);
      RepeatOnce(catalog, rq, i);
      RunningSoFar(catalog, rq, i, m);
      if i == m {
        j := 0;
        EmptiedPageRestarts(catalog, Repeating(catalog, rq, n - 1), rq);
      } else {
        j := i + 1;
        RunningSoFar(catalog, rq, j, m);
        ContinueByCursor(catalog, Repeating(catalog, rq, n - 1), Repeating(catalog, rq, i), rq);
      }
    }
  }

  ghost predicate NoPageEmptied(catalog: seq<CatalogRow>, rq: Request) {
    forall n: nat :: !Repeating(catalog, rq, n).done ==> KeepsATable(catalog, Repeating(catalog, rq, n).cursor, rq)
  }

  /** Repeating one request, the walk ends exactly when none of its pages is emptied; when it ends it
      has visited every table once, in order. */
  lemma RepeatedWalkEndsIff(catalog: seq<CatalogRow>, rq: Request)
    requires Walkable(catalog) && rq.limit >= 1
    ensures (exists n: nat :: Repeating(catalog, rq, n).done) <==> NoPageEmptied(catalog, rq)
    ensures forall n: nat :: Repeating(catalog, rq, n).done ==> Finished(Listing(catalog), Repeating(catalog, rq, n))
  {
    hide KeepsATable, Walkable, Continue;
    if NoPageEmptied(catalog, rq) {
      forall n: nat
        ensures Repeating(catalog, rq, n).done ==> Finished(Listing(catalog), Repeating(catalog, rq, n))
        ensures n == |Listing(catalog)| + 1 ==> Repeating(catalog, rq, n).done
      {
        RepeatedWalk(catalog, rq, n);
      }
      assert Repeating(catalog, rq, |Listing(catalog)| + 1).done;
    } else {
      var m: nat :| !Repeating(catalog, rq, m).done && !KeepsATable(catalog, Repeating(catalog, rq, m).cursor, rq);
      forall n: nat ensures !Repeating(catalog, rq, n).done {
        var _ := GoesRound(catalog, rq, m, n);
      }
    }
  }

  lemma RepeatedWalk(catalog: seq<CatalogRow>, rq: Request, n: nat)
    requires Walkable(catalog) && rq.limit >= 1 && NoPageEmptied(catalog, rq)
    ensures var w := Repeating(catalog, rq, n);
            && (w.done ==> Finished(Listing(catalog), w))
            && (n > |Listing(catalog)| ==> w.done)
    decreases n
  {
    hide KeepsATable, Walkable, Continue;
    var requests := seq(n, _ => rq);
    forall i | 0 <= i < n ensures KeepsATable(catalog, Walk(catalog, requests[..i]).cursor, rq) {
      assert requests[..i] == seq(i, _ => rq);
      assert Walk(catalog, requests[..i]) == Repeating(catalog, rq, i);
      if Repeating(catalog, rq, i).done {
        RepeatedWalk(catalog, rq, i);
        assert Repeating(catalog, rq, 0) == WalkState([], "", false);
      }
    }
    WalkVisitsEveryTableOnce(catalog, requests);
  }

  // ---------- a catalog that shows it ----------

  /** 63 bytes, each a control character that takes six bytes in JSON. */
  function ControlName(): string {
    seq(63, _ => 1 as char)
  }

  const CONTROL_CATALOG := [
    CatalogRow(ControlName(), ControlName(), "BASE TABLE"),
    CatalogRow(ControlName(), "t", "BASE TABLE")]

  lemma {:induction false} ControlLen(n: nat)
    ensures CharsLen(seq(n, _ => 1 as char)) == 6 * n
  {
    if n > 0 {
      assert seq(n, _ => 1 as char)[1..] == seq(n - 1, _ => 1 as char);
      ControlLen(n - 1);
    }
  }

  lemma ControlRowsAreSafe()
    ensures CursorSafe(ControlName(), ControlName()) && CursorSafe(ControlName(), "t")
    ensures Less(ControlName(), "t") && ControlName() != ""
  {
    assert ControlName()[0] == 1 as char < "t"[0];
  }

  lemma ControlCatalogIsWalkable()
    ensures Walkable(CONTROL_CATALOG) && Listing(CONTROL_CATALOG) == CONTROL_CATALOG
  {
    ControlRowsAreSafe();
    hide CursorSafe, Less, ControlName;
    var first := CatalogRow(ControlName(), ControlName(), "BASE TABLE");
    var second := CatalogRow(ControlName(), "t", "BASE TABLE");
    ControlIsNotCatalog();
    TwoListed(first, second);
  }

  lemma ControlIsNotCatalog()
    ensures ControlName() != "pg_catalog" && ControlName() != "information_schema"
  {
    assert |ControlName()| == 63;
  }

  lemma TwoListed(first: CatalogRow, second: CatalogRow)
    requires Listed(first) && Listed(second)
    ensures Listing([first, second]) == [first, second]
  {
    hide Listed;
    var rows := [first, second];
    assert rows[1..] == [second] && rows[1..][1..] == [];
    assert Listing(rows[1..]) == [second] + Listing(rows[1..][1..]);
  }

  lemma FrameCoversPage(o: Output, t: TableSummary)
    requires o.tables == [t] && o.page.Some? && o.page.value.nextCursor != ""
    ensures FrameLen(o) >= StrLen(t.namespace) + StrLen(t.name) + StrLen(o.page.value.nextCursor)
  {
    hide StrLen, Digits, IntLen, BoolLen, DetailLen, MoreLen;
    assert ElementsLen(o.tables, SummaryLen) >= SummaryLen(t);
  }

  lemma ControlNameLen()
    ensures StrLen(ControlName()) == 380 && StrLen(JoinCursor(ControlName(), ControlName())) >= 756
  {
    var name := ControlName();
    ControlLen(63);
    hide CharsLen;
    CharsLenConcat(name + ".", name);
    CharsLenConcat(name, ".");
  }

  /** A page of one such table, with another to come, does not fit 1024 bytes. */
  lemma ControlPageLen(rows: seq<CatalogRow>, rq: Request)
    requires rows == CONTROL_CATALOG && rq.limit == 1
    ensures EncodedLen(BuildPage(rows, rq.limit).(latencyMs := rq.latencyMs)) > 1024
  {
    var name := ControlName();
    var o := BuildPage(rows, rq.limit).(latencyMs := rq.latencyMs);
    KindOfBaseTable();
    var t := TableSummary(name, name, "table");
    assert o.tables == [t] && o.page.Some? && o.page.value.nextCursor == JoinCursor(name, name) != "";
    hide BuildPage, FrameLen, StrLen, ControlName;
    ControlNameLen();
    FrameCoversPage(o, t);
  }

  lemma KindOfBaseTable()
    ensures TableKind("BASE TABLE") == "table"
  {
    assert Lower("VIEW") == "view";
    TrimIdentity("BASE TABLE");
    assert |Lower("BASE TABLE")| == 10;
  }

  /** Under an admitted request this catalog's first page is emptied, and repeating the request
      never ends and never visits a table. */
  lemma EmptiedPageExists(n: nat)
    ensures var rq := Request(1, MIN_MAX_BYTES, 0);
            && Walkable(CONTROL_CATALOG) && Valid(rq)
            && (forall row <- CONTROL_CATALOG :: |row.namespace| <= 63 && |row.name| <= 63)
            && !KeepsATable(CONTROL_CATALOG, "", rq)
            && Repeating(CONTROL_CATALOG, rq, n) == WalkState([], "", false)
  {
    var rq := Request(1, MIN_MAX_BYTES, 0);
    ControlCatalogIsWalkable();
    assert CONTROL_CATALOG[0..] == CONTROL_CATALOG;
    ControlPageIsEmptied(CONTROL_CATALOG, 0);
    hide KeepsATable, Walkable, Respond;
    NeverPastTheStart(CONTROL_CATALOG, rq, n);
  }

  /** Where only those two tables are left, a page of one of them is emptied. */
  lemma ControlPageIsEmptied(catalog: seq<CatalogRow>, n: nat)
    requires Walkable(catalog) && n <= |Listing(catalog)| && Listing(catalog)[n..] == CONTROL_CATALOG
    ensures !KeepsATable(catalog, CursorAt(Listing(catalog), n), Request(1, MIN_MAX_BYTES, 0))
  {
    var rq := Request(1, MIN_MAX_BYTES, 0);
    RespondAt(catalog, n, rq);
    FetchAt(catalog, n, 1);
    var rows := Take(Listing(catalog)[n..], 2);
    assert rows == CONTROL_CATALOG;
    hide EncodedLen, Matching, Walkable, Finalize, Fetch;
    ControlPageLen(rows, rq);
    OneTablePage(BuildPage(rows, 1).(latencyMs := 0), MIN_MAX_BYTES);
  }

  lemma {:induction false} NeverPastTheStart(catalog: seq<CatalogRow>, rq: Request, n: nat)
    requires rq.limit >= 1 && !KeepsATable(catalog, "", rq)
    ensures Repeating(catalog, rq, n) == WalkState([], "", false)
  {
    hide KeepsATable, Repeating, Continue;
    RepeatOnce(catalog, rq, if n > 0 then n - 1 else 0);
    if n > 0 {
      NeverPastTheStart(catalog, rq, n - 1);
      EmptiedPageRestarts(catalog, Repeating(catalog, rq, n - 1), rq);
    }
  }

  // ---------- a walk that starts over in the middle ----------

  /** The same two tables after one with a short name. */
  const MIXED_CATALOG := [CatalogRow([1 as char], "t", "BASE TABLE")] + CONTROL_CATALOG

  lemma MixedCatalogIsWalkable()
    ensures Walkable(MIXED_CATALOG) && Listing(MIXED_CATALOG) == MIXED_CATALOG
    ensures MIXED_CATALOG[1..] == CONTROL_CATALOG
  {
    ControlCatalogIsWalkable();
    ShortIsLess();
    ListedFirst(CatalogRow([1 as char], "t", "BASE TABLE"), CONTROL_CATALOG);
  }

  /** One more table, ahead of a walkable catalog. */
  lemma ListedFirst(first: CatalogRow, rest: seq<CatalogRow>)
    requires Walkable(rest) && Listing(rest) == rest
    requires Listed(first) && CursorSafe(first.namespace, first.name) && first.name != ""
    requires forall row <- rest :: RowLess(first, row)
    ensures Walkable([first] + rest) && Listing([first] + rest) == [first] + rest
  {
    hide Listed, CursorSafe, RowLess;
    var rows := [first] + rest;
    assert rows[1..] == rest;
    assert Listing(rows) == [first] + Listing(rest);
    assert forall r <- rows :: r == first || r in rest;
  }

  lemma ShortIsLess()
    ensures Less([1 as char], ControlName())
  {
    assert ControlName()[0] == [1 as char][0];
    assert Less([1 as char][1..], ControlName()[1..]);
  }

  lemma ShortLens()
    ensures StrLen([1 as char]) == 8 && StrLen("t") == 3 && StrLen("table") == 7
    ensures StrLen(JoinCursor([1 as char], "t")) == 10
  {
    ControlLen(1);
    assert seq(1, _ => 1 as char) == [1 as char];
    var t, kind, dot := "t", "table", ".";
    hide CharsLen;
    PlainLen(t);
    PlainLen(kind);
    PlainLen(dot);
    CharsLenConcat([1 as char] + dot, t);
    CharsLenConcat([1 as char], dot);
  }

  lemma ShortPageIsOrdinary(o: Output)
    requires o.mode == MODE_TABLES && o.tables == [TableSummary([1 as char], "t", "table")] && o.table == None
    requires o.page == Some(Page(1, 1, true, JoinCursor([1 as char], "t")))
    requires o.more == None && IntLen(o.latencyMs) <= 20
    ensures OrdinaryPage(o)
  {
    hide CharsLen, StrLen, JoinCursor;
    ModeLen(o.mode);
    ShortLens();
    assert IntLen(1) == 1;
  }

  lemma ShortPageKept(rows: seq<CatalogRow>, rq: Request)
    requires |rows| == 2 && rows[0] == MIXED_CATALOG[0] && rq.limit == 1 && Valid(rq)
    ensures Finalize(BuildPage(rows, rq.limit).(latencyMs := rq.latencyMs), rq.maxBytes).tables != []
  {
    hide Finalize, OrdinaryPage, StrLen, TableKind, ControlName;
    var o := BuildPage(rows, rq.limit).(latencyMs := rq.latencyMs);
    KindOfBaseTable();
    assert o.tables == [TableSummary([1 as char], "t", "table")];
    ShortPageIsOrdinary(o);
    hide BuildPage;
    PageKeepsATable(o, rq.maxBytes);
  }

  lemma FirstPageListsOne(catalog: seq<CatalogRow>, rq: Request)
    requires Walkable(catalog) && |Listing(catalog)| == 3 && Listing(catalog)[0] == MIXED_CATALOG[0]
    requires rq == Request(1, MIN_MAX_BYTES, 0) && Valid(rq)
    ensures Respond(catalog, "", rq).Ok? && |Respond(catalog, "", rq).value.tables| == 1
    ensures KeepsATable(catalog, "", rq)
  {
    var rows := Take(Listing(catalog)[0..], 2);
    assert |rows| == 2 && rows[0] == MIXED_CATALOG[0];
    assert CursorAt(Listing(catalog), 0) == "";
    hide Walkable, Finalize, BuildPage, Matching, Respond, Fetch, Summary, Listed, ControlName, CursorAt;
    RespondAt(catalog, 0, rq);
    ShortPageKept(rows, rq);
    FinalizedPage(rows, 1, 0, MIN_MAX_BYTES);
  }

  lemma OnePageIn(catalog: seq<CatalogRow>, rq: Request)
    requires Walkable(catalog) && |Listing(catalog)| == 3 && Listing(catalog)[0] == MIXED_CATALOG[0]
    requires rq == Request(1, MIN_MAX_BYTES, 0) && Valid(rq)
    ensures Underway(Listing(catalog), Repeating(catalog, rq, 1), 1)
    ensures |Repeating(catalog, rq, 1).visited| == 1
    ensures KeepsATable(catalog, "", rq)
  {
    hide Walkable, Repeating, Respond, Listed, ControlName, KeepsATable, Matching;
    FirstPageListsOne(catalog, rq);
    var w := WalkState([], "", false);
    assert Underway(Listing(catalog), w, 0);
    ContinueAt(catalog, w, rq, 0);
    RepeatOnce(catalog, rq, 0);
    assert |Continue(catalog, w, rq).visited| == 1;
  }

  lemma MidWalkRestart(catalog: seq<CatalogRow>, rq: Request)
    requires Walkable(catalog) && |Listing(catalog)| == 3 && Listing(catalog)[0] == MIXED_CATALOG[0]
    requires Listing(catalog)[1..] == CONTROL_CATALOG
    requires rq == Request(1, MIN_MAX_BYTES, 0) && Valid(rq)
    ensures var w := Repeating(catalog, rq, 1);
            && !w.done && |w.visited| == 1 && !KeepsATable(catalog, w.cursor, rq)
            && var again := Repeating(catalog, rq, 3).visited;
            |again| > 1 && again[0] == again[1] == w.visited[0]
  {
    hide Walkable, KeepsATable, Repeating, Continue, CursorAt, Respond, Matching, ControlName, Listed, Summary;
    OnePageIn(catalog, rq);
    ControlPageIsEmptied(catalog, 1);
    var w := Repeating(catalog, rq, 1);
    RepeatOnce(catalog, rq, 1);
    RepeatOnce(catalog, rq, 2);
    RestartVisitsAgain(catalog, w, 1, rq, rq);
    var again := Repeating(catalog, rq, 3).visited;
    assert again[..1][0] == w.visited[0];
  }

  /** The short-named table is listed, the next page is emptied, and the one after lists it again. */
  lemma MidWalkRestartExists()
    ensures var rq := Request(1, MIN_MAX_BYTES, 0);
            && Walkable(MIXED_CATALOG) && Valid(rq)
            && (forall row <- MIXED_CATALOG :: |row.namespace| <= 63 && |row.name| <= 63)
            && var w := Repeating(MIXED_CATALOG, rq, 1);
            && !w.done && |w.visited| == 1 && !KeepsATable(MIXED_CATALOG, w.cursor, rq)
            && var again := Repeating(MIXED_CATALOG, rq, 3).visited;
            |again| > 1 && again[0] == again[1] == w.visited[0]
  {
    hide Walkable, KeepsATable, Repeating, Matching, Listing;
    OneDigit();
    MixedCatalogIsWalkable();
    MidWalkRestart(MIXED_CATALOG, Request(1, MIN_MAX_BYTES, 0));
  }
}
