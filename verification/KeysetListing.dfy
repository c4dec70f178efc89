/**
 Listing credentials by alias, page after page (list_page in
 backend/crates/service/src/credential/service.rs, listing.rs, and list_credentials in
 backend/crates/db/src/credential_repo.rs), while other operations change the store in between.
 */
module KeysetListing {
  import opened Wrappers
  import opened Text
  import opened CredentialModel
  import opened CredentialRepo
  import opened CredentialRuns

  const DEFAULT_LIST_LIMIT := 50
  const MAX_LIST_LIMIT := 100

  datatype Filter = Filter(
    category: Option<Category>,
    provider: Option<string>,
    env: Option<string>,
    tag: Option<string>,
    q: Option<string>)

  datatype ListInput = ListInput(filter: Filter, limit: Option<int>, cursor: Option<string>)

  datatype ListingPage = ListingPage(credentials: seq<Row>, limit: int, hasMore: bool, nextCursor: Option<string>)

  /** The column's collation, the ILIKE match of a row, and the filters' format checks: arbitrary,
      except that the collation is a strict total order. */
  datatype Listing = Listing(
    less: (string, string) -> bool,
    like: (string, Row) -> bool,
    filterOk: Filter -> bool)

  ghost predicate StrictTotal(less: (string, string) -> bool) {
    && (forall a, b :: less(a, b) || less(b, a) || a == b)
    && (forall a, b :: !(less(a, b) && less(b, a)))
    && (forall a :: !less(a, a))
    && (forall a, b, c :: less(a, b) && less(b, c) ==> less(a, c))
  }

  // ---------- input ----------

  /** `trim_filter_optional`, and the repository's `empty_to_none` */
  function NonEmpty(value: Option<string>): Option<string> {
    if value == None || Trim(value.value) == "" then None else Some(Trim(value.value))
  }

  function NormalizeFilter(f: Filter): Filter {
    var tag := NonEmpty(f.tag);
    Filter(f.category, NonEmpty(f.provider), NonEmpty(f.env),
           if tag == None then None else Some(Lower(tag.value)), NonEmpty(f.q))
  }

  function NormalizeList(input: ListInput): ListInput {
    ListInput(NormalizeFilter(input.filter), input.limit, NonEmpty(input.cursor))
  }

  predicate InputOk(l: Listing, input: ListInput) {
    && l.filterOk(input.filter)
    && (input.limit.Some? ==> 1 <= input.limit.value <= MAX_LIST_LIMIT)
    && (input.cursor.Some? ==> ValidAlias(input.cursor.value))
  }

  // ---------- the query ----------

  predicate Matches(l: Listing, f: Filter, row: Row) {
    && (f.category.Some? ==> row.category == f.category.value)
    && (f.provider.Some? ==> row.provider == f.provider.value)
    && (f.env.Some? ==> row.env == f.env.value)
    && (f.tag.Some? ==> f.tag.value in row.tags)
    && (f.q.Some? ==> l.like("%" + f.q.value + "%", row))
  }

  predicate Wanted(l: Listing, owner: Owner, f: Filter, row: Row) {
    row.owner == owner && !row.deleted && Matches(l, f, row)
  }

  predicate After(l: Listing, cursor: Option<string>, alias: string) {
    cursor.Some? ==> l.less(cursor.value, alias)
  }

  function InsertByAlias(l: Listing, row: Row, rows: seq<Row>): seq<Row> {
    if rows == [] || l.less(row.alias, rows[0].alias) then [row] + rows
    else [rows[0]] + InsertByAlias(l, row, rows[1..])
  }

  /** SELECT ... WHERE ... AND alias > cursor ORDER BY alias */
  function Select(l: Listing, rows: seq<Row>, owner: Owner, f: Filter, cursor: Option<string>): seq<Row> {
    if rows == [] then []
    else
      var (row, selected) := (rows[|rows| - 1], Select(l, rows[..|rows| - 1], owner, f, cursor));
      if Wanted(l, owner, f, row) && After(l, cursor, row.alias) then InsertByAlias(l, row, selected) else selected
  }

  function ClampLimit(limit: int): nat {
    if limit <= 0 then 50 else if limit < 101 then limit else 101
  }

  function Take<T>(items: seq<T>, n: nat): seq<T> {
    if n <= |items| then items[..n] else items
  }

  /** `list_credentials`: the filters are trimmed again, and the limit is clamped. */
  function ListCredentials(l: Listing, rows: seq<Row>, owner: Owner, f: Filter, cursor: Option<string>, limit: int)
    : seq<Row>
  {
    var filter := Filter(f.category, NonEmpty(f.provider), NonEmpty(f.env), NonEmpty(f.tag), NonEmpty(f.q));
    Take(Select(l, rows, owner, filter, NonEmpty(cursor)), ClampLimit(limit))
  }

  // ---------- one page ----------

  /** What a page is: the first `limit` of everything the query selects, and whether there is more. */
  function PageOf(l: Listing, rows: seq<Row>, owner: Owner, raw: ListInput): Result<ListingPage, Error> {
    var input := NormalizeList(raw);
    if !InputOk(l, input) then Err(Validation)
    else
      var all := Select(l, rows, owner, input.filter, input.cursor);
      var limit := input.limit.UnwrapOr(DEFAULT_LIST_LIMIT);
      Ok(if |all| <= limit then ListingPage(all, limit, false, None)
         else ListingPage(all[..limit], limit, true, Some(all[limit - 1].alias)))
  }

  lemma NonEmptyTwice(value: Option<string>)
    ensures NonEmpty(NonEmpty(value)) == NonEmpty(value)
  {
    if value.Some? {
      TrimIdempotent(value.value);
    }
  }

  lemma LoweredTagStays(tag: string)
    requires Trim(tag) == tag != ""
    ensures NonEmpty(Some(Lower(tag))) == Some(Lower(tag))
  {
    TrimIdentity(tag);
    assert Lower(tag)[0] == LowerChar(tag[0]);
    TrimIdentity(Lower(tag));
  }

  /** The repository's own trimming finds nothing left to trim. */
  lemma NormalizedFilterStays(f: Filter)
    ensures var n := NormalizeFilter(f);
            n == Filter(n.category, NonEmpty(n.provider), NonEmpty(n.env), NonEmpty(n.tag), NonEmpty(n.q))
  {
    NonEmptyTwice(f.provider);
    NonEmptyTwice(f.env);
    NonEmptyTwice(f.q);
    if f.tag.Some? && Trim(f.tag.value) != "" {
      TrimIdempotent(f.tag.value);
      LoweredTagStays(Trim(f.tag.value));
    }
  }

  ghost predicate Given(value: Option<string>) {
    value.Some? && Trim(value.value) != ""
  }

  /** What a raw filter asks of a row: a filter that is absent or blank asks nothing. */
  lemma WantedIs(l: Listing, owner: Owner, f: Filter, row: Row)
    ensures Wanted(l, owner, NormalizeFilter(f), row) <==>
              && row.owner == owner && !row.deleted
              && (f.category == None || f.category == Some(row.category))
              && (Given(f.provider) ==> Trim(f.provider.value) == row.provider)
              && (Given(f.env) ==> Trim(f.env.value) == row.env)
              && (Given(f.tag) ==> exists i | 0 <= i < |row.tags| :: row.tags[i] == Lower(Trim(f.tag.value)))
              && (Given(f.q) ==> l.like("%" + Trim(f.q.value) + "%", row))
  {
    hide Trim, Lower;
  }

  /** Which requests are refused, and which rows and limit the others get: the first of the wanted
      rows after the cursor, at most the limit asked for, or 50. */
  lemma PageIs(l: Listing, rows: seq<Row>, owner: Owner, raw: ListInput)
    requires StrictTotal(l.less) && OneLive(rows)
    ensures var r := PageOf(l, rows, owner, raw);
            && (r.Ok? <==>
                  && l.filterOk(NormalizeFilter(raw.filter))
                  && (raw.limit == None || 1 <= raw.limit.value <= 100)
                  && (Given(raw.cursor) ==> ValidAlias(Trim(raw.cursor.value))))
            && (r.Err? ==> r.error == Validation)
            && (r.Ok? ==>
                  var page := r.value;
                  && page.limit == (if raw.limit.Some? then raw.limit.value else 50)
                  && |page.credentials| <= page.limit
                  && (forall row <- page.credentials ::
                        && row in rows && Wanted(l, owner, NormalizeFilter(raw.filter), row)
                        && (Given(raw.cursor) ==> l.less(Trim(raw.cursor.value), row.alias)))
                  && (|page.credentials| < page.limit ==>
                        forall row <- rows | Wanted(l, owner, NormalizeFilter(raw.filter), row)
                                             && (Given(raw.cursor) ==> l.less(Trim(raw.cursor.value), row.alias)) ::
                          row in page.credentials))
  {
    hide Trim, NormalizeFilter, ValidAlias, Wanted;
    var n := NormalizeList(raw);
    SelectIs(l, rows, owner, n.filter, n.cursor);
    hide Select;
  }

  /** One row more than the page is asked for; it never meets the repository's clamp, so `has_more`
      is exact. */
  method ListPage(l: Listing, rows: seq<Row>, owner: Owner, raw: ListInput) returns (r: Result<ListingPage, Error>)
    ensures r == PageOf(l, rows, owner, raw)
  {
    var input := NormalizeList(raw);
    if !InputOk(l, input) {
      return Err(Validation);
    }
    var limit := input.limit.UnwrapOr(DEFAULT_LIST_LIMIT);
    var credentials := ListCredentials(l, rows, owner, input.filter, input.cursor, limit + 1);
    NormalizedFilterStays(raw.filter);
    NonEmptyTwice(raw.cursor);
    ghost var all := Select(l, rows, owner, input.filter, input.cursor);
    assert ClampLimit(limit + 1) == limit + 1;
    assert credentials == Take(all, limit + 1);
    assert |all| > limit ==> Take(all, limit + 1)[..limit] == all[..limit];
    var hasMore := |credentials| > limit;
    if hasMore {
      credentials := credentials[..limit];
    }
    var nextCursor := if hasMore && credentials != [] then Some(credentials[|credentials| - 1].alias) else None;
    r := Ok(ListingPage(credentials, limit, hasMore, nextCursor));
  }

  // ---------- what the query selects ----------

  ghost predicate Ascending(l: Listing, rows: seq<Row>) {
    forall i, j | 0 <= i < j < |rows| :: l.less(rows[i].alias, rows[j].alias)
  }

  ghost predicate AllAfter(l: Listing, cursor: Option<string>, rows: seq<Row>) {
    forall row <- rows :: After(l, cursor, row.alias)
  }

  lemma AscendingCons(l: Listing, head: Row, rest: seq<Row>)
    requires Ascending(l, rest) && forall row <- rest :: l.less(head.alias, row.alias)
    ensures Ascending(l, [head] + rest)
  {
  }

  lemma {:induction false} InsertKeepsOrder(l: Listing, row: Row, rows: seq<Row>)
    requires StrictTotal(l.less) && Ascending(l, rows)
    requires forall other <- rows :: other.alias != row.alias
    ensures Ascending(l, InsertByAlias(l, row, rows))
    ensures forall x :: x in InsertByAlias(l, row, rows) <==> x == row || x in rows
  {
    if rows == [] {
      AscendingCons(l, row, []);
    } else {
      assert rows == [rows[0]] + rows[1..] && Ascending(l, rows[1..]);
      assert forall other <- rows[1..] :: l.less(rows[0].alias, other.alias);
      hide Ascending;
      if l.less(row.alias, rows[0].alias) {
        AscendingCons(l, row, rows);
      } else {
        InsertKeepsOrder(l, row, rows[1..]);
        AscendingCons(l, rows[0], InsertByAlias(l, row, rows[1..]));
      }
    }
  }

  /** In order, each wanted row once, nothing else. */
  lemma {:induction false} SelectIs(l: Listing, rows: seq<Row>, owner: Owner, f: Filter, cursor: Option<string>)
    requires StrictTotal(l.less) && OneLive(rows)
    ensures var selected := Select(l, rows, owner, f, cursor);
            && Ascending(l, selected)
            && forall x :: x in selected <==> x in rows && Wanted(l, owner, f, x) && After(l, cursor, x.alias)
  {
    if rows != [] {
      var init, row := rows[..|rows| - 1], rows[|rows| - 1];
      SelectIs(l, init, owner, f, cursor);
      assert rows == init + [row];
      var selected := Select(l, init, owner, f, cursor);
      if Wanted(l, owner, f, row) && After(l, cursor, row.alias) {
        forall other <- selected ensures other.alias != row.alias {
          var i :| 0 <= i < |init| && init[i] == other;
          assert rows[i] == other && rows[|rows| - 1] == row;
        }
        InsertKeepsOrder(l, row, selected);
      }
    }
  }

  // ---------- the walk ----------

  /** The pages a client gets by feeding `nextCursor` back, each from the store of its moment. */
  function Walk(l: Listing, stores: seq<seq<Row>>, owner: Owner, input: ListInput): seq<ListingPage> {
    if stores == [] then []
    else
      match PageOf(l, stores[0], owner, input)
      case Err(_) => []
      case Ok(page) =>
        [page] + if page.hasMore then Walk(l, stores[1..], owner, input.(cursor := page.nextCursor)) else []
  }

  function Credentials(pages: seq<ListingPage>): seq<Row> {
    if pages == [] then [] else pages[0].credentials + Credentials(pages[1..])
  }

  ghost predicate Done(pages: seq<ListingPage>) {
    pages != [] && !pages[|pages| - 1].hasMore
  }

  /** Every store is one some run of operations reaches. */
  ghost predicate Sound(rows: seq<Row>) {
    OneLive(rows) && forall row <- rows :: !row.deleted ==> ValidAlias(row.alias)
  }

  lemma ReachableIsSound(rules: Rules, ops: seq<Op>)
    ensures Sound(Run(rules, ops).rows)
  {
    RunKeepsInv(rules, ops);
    assert forall row <- Run(rules, ops).rows :: SealedOk(row);
  }

  /** A page's cursor is accepted as it is, for the same filter and limit. */
  lemma NextInput(l: Listing, rows: seq<Row>, owner: Owner, input: ListInput)
    requires StrictTotal(l.less) && Sound(rows)
    requires PageOf(l, rows, owner, input).Ok? && PageOf(l, rows, owner, input).value.hasMore
    ensures var page := PageOf(l, rows, owner, input).value;
            var next := input.(cursor := page.nextCursor);
            && page.credentials != []
            && page.nextCursor == Some(page.credentials[|page.credentials| - 1].alias)
            && NormalizeList(next) == NormalizeList(input).(cursor := page.nextCursor)
            && InputOk(l, NormalizeList(next))
  {
    var n := NormalizeList(input);
    var all := Select(l, rows, owner, n.filter, n.cursor);
    SelectIs(l, rows, owner, n.filter, n.cursor);
    var page := PageOf(l, rows, owner, input).value;
    assert all[page.limit - 1] in all;
    ValidAliasTrims(page.nextCursor.value);
  }

  /** The page and what follows it: everything selected up to the page's last alias is on the page. */
  lemma PageCovers(l: Listing, rows: seq<Row>, owner: Owner, input: ListInput, row: Row)
    requires StrictTotal(l.less) && OneLive(rows) && PageOf(l, rows, owner, input).Ok?
    requires row in rows && Wanted(l, owner, NormalizeFilter(input.filter), row)
    requires After(l, NonEmpty(input.cursor), row.alias)
    ensures var page := PageOf(l, rows, owner, input).value;
            row in page.credentials || (page.hasMore && After(l, page.nextCursor, row.alias))
  {
    var n := NormalizeList(input);
    var all := Select(l, rows, owner, n.filter, n.cursor);
    SelectIs(l, rows, owner, n.filter, n.cursor);
    var page := PageOf(l, rows, owner, input).value;
    var i :| 0 <= i < |all| && all[i] == row;
    if page.hasMore && i < page.limit {
      assert page.credentials[i] == row;
    }
  }

  lemma PageIsSelected(l: Listing, rows: seq<Row>, owner: Owner, input: ListInput)
    requires StrictTotal(l.less) && OneLive(rows) && PageOf(l, rows, owner, input).Ok?
    ensures var page := PageOf(l, rows, owner, input).value;
            && Ascending(l, page.credentials) && AllAfter(l, NonEmpty(input.cursor), page.credentials)
            && forall row <- page.credentials :: row in rows && Wanted(l, owner, NormalizeFilter(input.filter), row)
  {
    var n := NormalizeList(input);
    SelectIs(l, rows, owner, n.filter, n.cursor);
    var all := Select(l, rows, owner, n.filter, n.cursor);
    var page := PageOf(l, rows, owner, input).value;
    assert forall row <- page.credentials :: row in all;
  }

  /** Each page's credentials were in the store, and wanted, when the page was read. */
  ghost predicate Genuine(l: Listing, stores: seq<seq<Row>>, pages: seq<ListingPage>, owner: Owner, f: Filter) {
    && |pages| <= |stores|
    && forall k | 0 <= k < |pages| :: forall row <- pages[k].credentials :: row in stores[k] && Wanted(l, owner, f, row)
  }

  lemma AscendingConcat(l: Listing, a: seq<Row>, b: seq<Row>, cursor: Option<string>)
    requires StrictTotal(l.less) && Ascending(l, a) && Ascending(l, b)
    requires a != [] && AllAfter(l, cursor, a) && AllAfter(l, Some(a[|a| - 1].alias), b)
    ensures Ascending(l, a + b) && AllAfter(l, cursor, a + b)
  {
    forall row <- b ensures After(l, cursor, row.alias) && forall i | 0 <= i < |a| :: l.less(a[i].alias, row.alias) {
      assert l.less(a[|a| - 1].alias, row.alias);
      assert a[|a| - 1] in a;
    }
    forall i, j | 0 <= i < j < |a + b| ensures l.less((a + b)[i].alias, (a + b)[j].alias) {
      if j >= |a| {
        assert b[j - |a|] in b;
      }
    }
  }

  lemma GenuinePrepend(l: Listing, stores: seq<seq<Row>>, page: ListingPage, rest: seq<ListingPage>,
                       owner: Owner, f: Filter)
    requires stores != [] && Genuine(l, stores[1..], rest, owner, f)
    requires forall row <- page.credentials :: row in stores[0] && Wanted(l, owner, f, row)
    ensures Genuine(l, stores, [page] + rest, owner, f)
  {
    var pages := [page] + rest;
    forall k | 0 <= k < |pages|
      ensures forall row <- pages[k].credentials :: row in stores[k] && Wanted(l, owner, f, row)
    {
      if k > 0 {
        assert pages[k] == rest[k - 1] && stores[k] == stores[1..][k - 1];
      }
    }
  }

  lemma {:induction false} WalkIsSound(l: Listing, stores: seq<seq<Row>>, owner: Owner, input: ListInput)
    requires StrictTotal(l.less) && forall rows <- stores :: Sound(rows)
    requires InputOk(l, NormalizeList(input))
    ensures var pages := Walk(l, stores, owner, input);
            && Ascending(l, Credentials(pages)) && AllAfter(l, NonEmpty(input.cursor), Credentials(pages))
            && Genuine(l, stores, pages, owner, NormalizeFilter(input.filter))
            && (Done(pages) || |pages| == |stores|)
  {
    if stores != [] {
      hide StrictTotal, InputOk, NormalizeFilter, Wanted, Select, Genuine, AllAfter, Ascending;
      assert Sound(stores[0]);
      assert PageOf(l, stores[0], owner, input).Ok?;
      var page := PageOf(l, stores[0], owner, input).value;
      PageIsSelected(l, stores[0], owner, input);
      hide PageOf, Sound;
      if page.hasMore {
        NextInput(l, stores[0], owner, input);
        var next := input.(cursor := page.nextCursor);
        assert forall rows <- stores[1..] :: rows in stores;
        WalkIsSound(l, stores[1..], owner, next);
        var rest := Walk(l, stores[1..], owner, next);
        assert Walk(l, stores, owner, input)[1..] == rest;
        assert NonEmpty(next.cursor) == page.nextCursor;
        AscendingConcat(l, page.credentials, Credentials(rest), NonEmpty(input.cursor));
        GenuinePrepend(l, stores, page, rest, owner, NormalizeFilter(input.filter));
      } else {
        GenuinePrepend(l, stores, page, [], owner, NormalizeFilter(input.filter));
        assert Walk(l, stores, owner, input) == [page] + [] == [page];
        assert Credentials([page][1..]) == [] && Credentials([page]) == page.credentials;
      }
    }
  }

  /** Wanted under this alias at the moment of every page. */
  ghost predicate WantedThroughout(l: Listing, stores: seq<seq<Row>>, owner: Owner, f: Filter, alias: string) {
    forall rows <- stores :: exists row <- rows :: row.alias == alias && Wanted(l, owner, f, row)
  }

  ghost predicate Lists(pages: seq<ListingPage>, alias: string) {
    exists row <- Credentials(pages) :: row.alias == alias
  }

  lemma {:induction false} WalkIsComplete(l: Listing, stores: seq<seq<Row>>, owner: Owner, input: ListInput,
                                          alias: string)
    requires StrictTotal(l.less) && forall rows <- stores :: Sound(rows)
    requires InputOk(l, NormalizeList(input)) && Done(Walk(l, stores, owner, input))
    requires WantedThroughout(l, stores, owner, NormalizeFilter(input.filter), alias)
    requires After(l, NonEmpty(input.cursor), alias)
    ensures Lists(Walk(l, stores, owner, input), alias)
  {
    hide StrictTotal, InputOk, NormalizeFilter, Wanted, Select;
    assert stores[0] in stores && Sound(stores[0]);
    var page := PageOf(l, stores[0], owner, input).value;
    var row :| row in stores[0] && row.alias == alias && Wanted(l, owner, NormalizeFilter(input.filter), row);
    PageCovers(l, stores[0], owner, input, row);
    hide PageOf, Sound;
    var pages := Walk(l, stores, owner, input);
    assert Credentials(pages) == page.credentials + Credentials(pages[1..]);
    if row !in page.credentials {
      NextInput(l, stores[0], owner, input);
      var next := input.(cursor := page.nextCursor);
      var rest := Walk(l, stores[1..], owner, next);
      assert pages == [page] + rest && pages[1..] == rest;
      assert NonEmpty(next.cursor) == page.nextCursor;
      assert forall rows <- stores[1..] :: rows in stores;
      WalkIsComplete(l, stores[1..], owner, next, alias);
    }
  }

  // ---------- what every walk guarantees ----------

  function Stores(rules: Rules, runs: seq<seq<Op>>): seq<seq<Row>> {
    seq(|runs|, k requires 0 <= k < |runs| => Run(rules, runs[k]).rows)
  }

  /** Whatever operations run between the pages: aliases come strictly ascending, so none twice;
      each was live and matching when its page was read; and once a page reports no more, every
      alias that was live and matching at each page has been listed. */
  lemma WalkUnderChange(l: Listing, rules: Rules, runs: seq<seq<Op>>, owner: Owner, input: ListInput)
    requires StrictTotal(l.less) && InputOk(l, NormalizeList(input))
    ensures var stores := Stores(rules, runs);
            var pages := Walk(l, stores, owner, input);
            && Ascending(l, Credentials(pages))
            && Genuine(l, stores, pages, owner, NormalizeFilter(input.filter))
            && (Done(pages) || |pages| == |stores|)
            && (Done(pages) ==>
                  forall alias | WantedThroughout(l, stores, owner, NormalizeFilter(input.filter), alias)
                                 && After(l, NonEmpty(input.cursor), alias) ::
                    Lists(pages, alias))
  {
    hide NormalizeFilter, InputOk, Run, Sound, Wanted, Walk;
    var stores := Stores(rules, runs);
    forall rows <- stores ensures Sound(rows) {
      var k :| 0 <= k < |stores| && stores[k] == rows;
      ReachableIsSound(rules, runs[k]);
    }
    WalkIsSound(l, stores, owner, input);
    if Done(Walk(l, stores, owner, input)) {
      forall alias | WantedThroughout(l, stores, owner, NormalizeFilter(input.filter), alias)
                     && After(l, NonEmpty(input.cursor), alias)
        ensures Lists(Walk(l, stores, owner, input), alias)
      {
        WalkIsComplete(l, stores, owner, input, alias);
      }
    }
  }

  /** A page never hides a remaining row: `has_more` holds exactly when the store has a wanted
      credential after the page, and never on an empty page. */
  lemma HasMoreIsExact(l: Listing, rows: seq<Row>, owner: Owner, input: ListInput)
    requires StrictTotal(l.less) && OneLive(rows) && PageOf(l, rows, owner, input).Ok?
    ensures var page := PageOf(l, rows, owner, input).value;
            && (page.hasMore <==> exists row <- rows ::
                  Wanted(l, owner, NormalizeFilter(input.filter), row) && After(l, NonEmpty(input.cursor), row.alias)
                  && row !in page.credentials)
            && (page.hasMore ==> |page.credentials| == page.limit > 0)
  {
    var n := NormalizeList(input);
    var all := Select(l, rows, owner, n.filter, n.cursor);
    SelectIs(l, rows, owner, n.filter, n.cursor);
    var page := PageOf(l, rows, owner, input).value;
    if page.hasMore {
      assert all[page.limit] in all;
      assert all[page.limit] !in page.credentials;
    }
  }

  // ---------- an unchanged store ----------

  lemma {:induction false} AscendingUnique(l: Listing, a: seq<Row>, b: seq<Row>)
    requires StrictTotal(l.less) && Ascending(l, a) && Ascending(l, b)
    requires forall x :: x in a <==> x in b
    ensures a == b
  {
    if a != [] {
      assert a[0] in b;
    }
    if b != [] {
      assert b[0] in a;
      assert a[0] == b[0];
      forall x ensures x in a[1..] <==> x in b[1..] {
        assert x in a <==> x == a[0] || x in a[1..];
        assert x in b <==> x == b[0] || x in b[1..];
      }
      AscendingUnique(l, a[1..], b[1..]);
      assert a == [a[0]] + a[1..] && b == [b[0]] + b[1..];
    }
  }

  /** Selecting after the n-th alias leaves exactly the rest. */
  lemma SelectRest(l: Listing, rows: seq<Row>, owner: Owner, f: Filter, cursor: Option<string>, n: nat)
    requires StrictTotal(l.less) && OneLive(rows)
    requires 0 < n <= |Select(l, rows, owner, f, cursor)|
    ensures var all := Select(l, rows, owner, f, cursor);
            Select(l, rows, owner, f, Some(all[n - 1].alias)) == all[n..]
  {
    var all := Select(l, rows, owner, f, cursor);
    var rest := Select(l, rows, owner, f, Some(all[n - 1].alias));
    SelectIs(l, rows, owner, f, cursor);
    SelectIs(l, rows, owner, f, Some(all[n - 1].alias));
    hide Select, Wanted, OneLive;
    assert all[n - 1] in all;
    forall x ensures x in rest <==> x in all[n..] {
      if x in rest {
        var i :| 0 <= i < |all| && all[i] == x;
        assert i >= n;
      }
    }
    AscendingUnique(l, rest, all[n..]);
  }

  /** A page, and what its cursor leaves, are what the query selects. */
  lemma PageSplits(l: Listing, rows: seq<Row>, owner: Owner, input: ListInput)
    requires StrictTotal(l.less) && OneLive(rows) && PageOf(l, rows, owner, input).Ok?
    ensures var page := PageOf(l, rows, owner, input).value;
            var all := Select(l, rows, owner, NormalizeFilter(input.filter), NonEmpty(input.cursor));
            if page.hasMore
            then page.credentials != []
                 && all == page.credentials + Select(l, rows, owner, NormalizeFilter(input.filter), page.nextCursor)
            else all == page.credentials
  {
    hide StrictTotal, OneLive, NormalizeFilter, Select;
    var page := PageOf(l, rows, owner, input).value;
    if page.hasMore {
      SelectRest(l, rows, owner, NormalizeFilter(input.filter), NonEmpty(input.cursor), page.limit);
    }
  }

  /** Nothing changes between the pages: the walk is the whole listing, in order, and it ends after
      at most one page for each credential, and one more. */
  lemma {:induction false} WalkOfUnchangedStore(l: Listing, stores: seq<seq<Row>>, rows: seq<Row>,
                                                owner: Owner, input: ListInput)
    requires StrictTotal(l.less) && Sound(rows) && InputOk(l, NormalizeList(input))
    requires forall store <- stores :: store == rows
    requires |stores| > |Select(l, rows, owner, NormalizeFilter(input.filter), NonEmpty(input.cursor))|
    ensures var pages := Walk(l, stores, owner, input);
            && Done(pages)
            && Credentials(pages) == Select(l, rows, owner, NormalizeFilter(input.filter), NonEmpty(input.cursor))
  {
    assert OneLive(rows);
    assert PageOf(l, rows, owner, input).Ok?;
    hide StrictTotal, InputOk, NormalizeFilter, Wanted, Select, Sound, PageOf, OneLive;
    PageSplits(l, rows, owner, input);
    var page := PageOf(l, rows, owner, input).value;
    var pages := Walk(l, stores, owner, input);
    assert stores[0] in stores;
    if page.hasMore {
      NextInput(l, rows, owner, input);
      var next := input.(cursor := page.nextCursor);
      assert NonEmpty(next.cursor) == page.nextCursor;
      assert forall store <- stores[1..] :: store in stores;
      WalkOfUnchangedStore(l, stores[1..], rows, owner, next);
      assert pages[1..] == Walk(l, stores[1..], owner, next);
    } else {
      assert pages == [page] && Credentials(pages[1..]) == [];
    }
  }
}
