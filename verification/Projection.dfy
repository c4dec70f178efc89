/**
 JSONPath and table projections (backend/crates/json-output/src/projection.rs). Parsing and
 evaluating a full JSONPath belong to a library, and enter as `PathLibrary`.
 */
module Projection {
  import opened Wrappers
  import opened Text
  import opened Json
  import opened PreviewPath

  const MAX_JSON_PATHS := 16
  const MAX_JSON_PATH_LEN := 512

  type Query = nat

  datatype PathLibrary = PathLibrary(parse: string -> Option<Query>, query: (Query, Value) -> seq<Value>)

  /** A column of a table projection; columns come in name order, one per name. */
  datatype Column = Column(name: string, path: string)

  datatype TableProjection = TableProjection(base: string, columns: seq<Column>)

  ghost predicate ColumnsOrdered(columns: seq<Column>) {
    forall i, j | 0 <= i < j < |columns| :: Less(columns[i].name, columns[j].name)
  }

  // ---------- validation ----------

  function Utf8Length(s: string): nat {
    if s == "" then 0 else Utf8Len(s[0]) + Utf8Length(s[1..])
  }

  predicate HasDoubleDot(s: string) {
    exists i | 0 <= i < |s| - 1 :: s[i] == '.' && s[i + 1] == '.'
  }

  predicate ValidPath(lib: PathLibrary, path: string) {
    var trimmed := Trim(path);
    && trimmed != "" && Utf8Length(trimmed) <= MAX_JSON_PATH_LEN
    && trimmed[0] == '$'
    && !HasDoubleDot(trimmed)
    && lib.parse(SplitOperator(trimmed).0).Some?
  }

  predicate ValidPaths(lib: PathLibrary, paths: seq<string>) {
    |paths| <= MAX_JSON_PATHS && forall i | 0 <= i < |paths| :: ValidPath(lib, paths[i])
  }

  function TablePaths(table: TableProjection): seq<string> {
    [table.base] + seq(|table.columns|, i requires 0 <= i < |table.columns| => table.columns[i].path)
  }

  predicate ValidTable(lib: PathLibrary, table: TableProjection) {
    && table.columns != []
    && ValidPaths(lib, TablePaths(table))
    && forall i | 0 <= i < |TablePaths(table)| :: SplitOperator(Trim(TablePaths(table)[i])).1 == None
  }

  // ---------- objects under construction ----------

  /** Insert or replace, keeping key order. */
  function Put(members: seq<Member>, key: string, value: Value): seq<Member> {
    if members == [] || Less(key, members[0].key) then [Member(key, value)] + members
    else if members[0].key == key then [Member(key, value)] + members[1..]
    else [members[0]] + Put(members[1..], key, value)
  }

  function Lookup(members: seq<Member>, key: string): Option<Value> {
    if members == [] then None
    else if members[0].key == key then Some(members[0].value)
    else Lookup(members[1..], key)
  }

  ghost predicate Ascending(members: seq<Member>) {
    forall i, j | 0 <= i < j < |members| :: Less(members[i].key, members[j].key)
  }

  lemma {:induction false} PutLookup(members: seq<Member>, key: string, value: Value, other: string)
    ensures Lookup(Put(members, key, value), other) == if other == key then Some(value) else Lookup(members, other)
  {
    LessTotal(key, key);
    if members != [] && !Less(key, members[0].key) && members[0].key != key {
      PutLookup(members[1..], key, value, other);
    }
  }

  lemma {:induction false} PutAscends(members: seq<Member>, key: string, value: Value)
    requires Ascending(members)
    ensures Ascending(Put(members, key, value))
    ensures forall m <- Put(members, key, value) :: m.key == key || m in members
  {
    if members == [] {
    } else if Less(key, members[0].key) {
      forall j | 0 <= j < |members| ensures Less(key, members[j].key) {
        if j > 0 { LessTransitive(key, members[0].key, members[j].key); }
      }
    } else if members[0].key != key {
      LessTotal(key, members[0].key);
      PutAscends(members[1..], key, value);
      assert forall m <- members[1..] :: Less(members[0].key, m.key);
      var rest := Put(members[1..], key, value);
      assert forall j | 0 <= j < |rest| :: rest[j] in rest;
    }
  }

  // ---------- keyed projection ----------

  function ValueLength(v: Value): Option<nat> {
    match v
    case Array(items) => Some(|items|)
    case Object(members) => Some(|members|)
    case Str(s) => Some(|s|)
    case _ => None
  }

  function LengthValue(v: Value): Value {
    match ValueLength(v)
    case None => Null
    case Some(n) => Number(Decimal(n))
  }

  function LengthProjection(nodes: seq<Value>): Value {
    if |nodes| == 1 then LengthValue(nodes[0])
    else Array(seq(|nodes|, i requires 0 <= i < |nodes| => LengthValue(nodes[i])))
  }

  /** The projection of one trimmed path; the library's refusal is an error. */
  function ProjectOne(lib: PathLibrary, value: Value, path: string): Result<Value, Error> {
    var (base, operator) := SplitOperator(path);
    match lib.parse(base)
    case None => Err(Validation)
    case Some(query) =>
      var nodes := lib.query(query, value);
      match operator
      case Some(Count) => Ok(Number(Decimal(|nodes|)))
      case Some(Length) => Ok(LengthProjection(nodes))
      case None => Ok(Array(nodes))
  }

  ghost predicate Denotes(v: Value, n: nat) {
    v.Number? && Denoted(v.text) == n
  }

  /** Items, members or characters; anything else has no length. */
  ghost predicate IsLengthOf(r: Value, v: Value) {
    match v
    case Array(items) => Denotes(r, |items|)
    case Object(members) => Denotes(r, |members|)
    case Str(s) => Denotes(r, |s|)
    case _ => r == Null
  }

  /** One node's length by itself, several nodes' lengths in an array. */
  ghost predicate AreLengths(r: Value, nodes: seq<Value>) {
    if |nodes| == 1 then IsLengthOf(r, nodes[0])
    else r.Array? && |r.items| == |nodes| && forall i | 0 <= i < |nodes| :: IsLengthOf(r.items[i], nodes[i])
  }

  lemma LengthValueIs(v: Value)
    ensures IsLengthOf(LengthValue(v), v)
  {
    if ValueLength(v).Some? {
      DecimalIs(ValueLength(v).value);
    }
  }

  /** A path with an operator word at its end gives the number of nodes the rest selects, or their
      lengths; another one gives the nodes themselves. */
  lemma ProjectOneIs(lib: PathLibrary, value: Value, base: string, word: string)
    requires base != "" && lib.parse(base).Some?
    ensures var nodes := lib.query(lib.parse(base).value, value);
            && (SplitOperator(base).1 == None ==> ProjectOne(lib, value, base) == Ok(Array(nodes)))
            && (word in {".count", ".count()"} ==>
                  var r := ProjectOne(lib, value, base + word);
                  r.Ok? && Denotes(r.value, |nodes|))
            && (word in {".length", ".length()"} ==>
                  var r := ProjectOne(lib, value, base + word);
                  r.Ok? && AreLengths(r.value, nodes))
  {
    hide StripSuffix, Decimal, LengthValue;
    SplitOperatorIs(base, word);
    var nodes := lib.query(lib.parse(base).value, value);
    DecimalIs(|nodes|);
    forall i | 0 <= i < |nodes| ensures IsLengthOf(LengthValue(nodes[i]), nodes[i]) {
      LengthValueIs(nodes[i]);
    }
    if SplitOperator(base).1 == None {
      NoOperatorIsWhole(base);
    }
  }

  lemma NoOperatorIsWhole(path: string)
    requires SplitOperator(path).1 == None
    ensures SplitOperator(path).0 == path
  {
    hide StripSuffix;
  }

  /** Members for the first n paths, a repeated path replacing itself. */
  function ProjectedMembers(lib: PathLibrary, value: Value, paths: seq<string>): Result<seq<Member>, Error> {
    if paths == [] then Ok([])
    else
      match ProjectedMembers(lib, value, paths[..|paths| - 1])
      case Err(e) => Err(e)
      case Ok(members) =>
        var key := Trim(paths[|paths| - 1]);
        match ProjectOne(lib, value, key)
        case Err(e) => Err(e)
        case Ok(projected) => Ok(Put(members, key, projected))
  }

  function ProjectPaths(lib: PathLibrary, value: Value, paths: seq<string>): Result<Value, Error> {
    match ProjectedMembers(lib, value, paths)
    case Err(e) => Err(e)
    case Ok(members) => Ok(if members == [] then Null else Object(members))
  }

  method ProjectJsonPaths(lib: PathLibrary, value: Value, paths: seq<string>) returns (r: Result<Value, Error>)
    ensures r == ProjectPaths(lib, value, paths)
  {
    var out: seq<Member> := [];
    for i := 0 to |paths|
      invariant ProjectedMembers(lib, value, paths[..i]) == Ok(out)
    {
      assert paths[..i + 1][..i] == paths[..i];
      var key := Trim(paths[i]);
      var projected := ProjectOne(lib, value, key);
      if projected.Err? {
        ProjectionErrs(lib, value, paths, i + 1);
        return Err(projected.error);
      }
      out := Put(out, key, projected.value);
    }
    assert paths[..|paths|] == paths;
    r := if out == [] then Ok(Null) else Ok(Object(out));
  }

  /** An error on a prefix is the error of the whole. */
  lemma {:induction false} ProjectionErrs(lib: PathLibrary, value: Value, paths: seq<string>, n: nat)
    requires n <= |paths| && ProjectedMembers(lib, value, paths[..n]).Err?
    ensures ProjectedMembers(lib, value, paths) == ProjectedMembers(lib, value, paths[..n])
    decreases |paths| - n
  {
    if n < |paths| {
      assert paths[..n + 1][..n] == paths[..n];
      ProjectionErrs(lib, value, paths, n + 1);
    } else {
      assert paths[..n] == paths;
    }
  }

  lemma ValidPathProjects(lib: PathLibrary, value: Value, path: string)
    requires ValidPath(lib, path)
    ensures ProjectOne(lib, value, Trim(path)).Ok?
  {
  }

  /** Validated paths always project; the result has one member per distinct trimmed path, in key
      order, each holding that path's own projection. */
  lemma {:induction false} ValidPathsProject(lib: PathLibrary, value: Value, paths: seq<string>)
    requires forall i | 0 <= i < |paths| :: ValidPath(lib, paths[i])
    ensures var r := ProjectedMembers(lib, value, paths);
            && r.Ok? && Ascending(r.value)
            && (forall m <- r.value :: exists i | 0 <= i < |paths| :: m.key == Trim(paths[i]))
            && (forall i | 0 <= i < |paths| ::
                  && ProjectOne(lib, value, Trim(paths[i])).Ok?
                  && Lookup(r.value, Trim(paths[i])) == Some(ProjectOne(lib, value, Trim(paths[i])).value))
  {
    hide ValidPath, ProjectOne, Trim, Put, Lookup;
    if paths != [] {
      var init, last := paths[..|paths| - 1], paths[|paths| - 1];
      ValidPathsProject(lib, value, init);
      ValidPathProjects(lib, value, last);
      var members := ProjectedMembers(lib, value, init).value;
      var projected := ProjectOne(lib, value, Trim(last)).value;
      PutAscends(members, Trim(last), projected);
      var r := Put(members, Trim(last), projected);
      forall i | 0 <= i < |paths|
        ensures ProjectOne(lib, value, Trim(paths[i])).Ok?
        ensures Lookup(r, Trim(paths[i])) == Some(ProjectOne(lib, value, Trim(paths[i])).value)
      {
        PutLookup(members, Trim(last), projected, Trim(paths[i]));
        if i < |init| {
          assert init[i] == paths[i];
        } else {
          assert paths[i] == last;
        }
      }
      forall m <- r ensures exists i | 0 <= i < |paths| :: m.key == Trim(paths[i]) {
        if m in members {
          var i :| 0 <= i < |init| && m.key == Trim(init[i]);
          assert m.key == Trim(paths[i]);
        } else {
          assert m.key == Trim(paths[|paths| - 1]);
        }
      }
    }
  }

  // ---------- table projection ----------

  /** No node is null, one node is itself, several are an array. */
  function Collapse(nodes: seq<Value>): Value {
    if nodes == [] then Null else if |nodes| == 1 then nodes[0] else Array(nodes)
  }

  ghost predicate IsCell(cell: Value, nodes: seq<Value>) {
    && (|nodes| == 0 ==> cell == Null)
    && (|nodes| == 1 ==> cell == nodes[0])
    && (|nodes| > 1 ==> cell.Array? && cell.items == nodes)
  }

  lemma CollapseIs(nodes: seq<Value>)
    ensures IsCell(Collapse(nodes), nodes)
  {
  }

  function ParseColumns(lib: PathLibrary, columns: seq<Column>): Result<seq<Query>, Error> {
    if columns == [] then Ok([])
    else
      match ParseColumns(lib, columns[..|columns| - 1])
      case Err(e) => Err(e)
      case Ok(queries) =>
        match lib.parse(Trim(columns[|columns| - 1].path))
        case None => Err(Validation)
        case Some(query) => Ok(queries + [query])
  }

  function RowMembers(lib: PathLibrary, row: Value, columns: seq<Column>, queries: seq<Query>): seq<Member>
    requires |queries| == |columns|
  {
    if columns == [] then []
    else
      var n := |columns| - 1;
      Put(RowMembers(lib, row, columns[..n], queries[..n]), columns[n].name, Collapse(lib.query(queries[n], row)))
  }

  method ProjectTable(lib: PathLibrary, value: Value, table: TableProjection) returns (r: Result<Value, Error>)
    ensures r == TableOf(lib, value, table)
  {
    hide ParseColumns, RowObjects, Trim;
    var base := lib.parse(Trim(table.base));
    if base == None {
      return Err(Validation);
    }
    var queries := ParseAll(lib, table.columns);
    if queries.Err? {
      return Err(queries.error);
    }
    ParsedColumns(lib, table.columns);
    var rows := ProjectRows(lib, lib.query(base.value, value), table.columns, queries.value);
    r := Ok(Array(rows));
  }

  /** The loop over the columns that parses their paths. */
  method ParseAll(lib: PathLibrary, columns: seq<Column>) returns (r: Result<seq<Query>, Error>)
    ensures r == ParseColumns(lib, columns)
  {
    hide Trim;
    var queries: seq<Query> := [];
    for i := 0 to |columns|
      invariant ParseColumns(lib, columns[..i]) == Ok(queries)
    {
      assert columns[..i + 1][..i] == columns[..i];
      var query := lib.parse(Trim(columns[i].path));
      if query == None {
        ColumnErrs(lib, columns, i + 1);
        return Err(Validation);
      }
      queries := queries + [query.value];
    }
    assert columns[..|columns|] == columns;
    r := Ok(queries);
  }

  /** The loops over base nodes and columns. */
  method ProjectRows(lib: PathLibrary, rows: seq<Value>, columns: seq<Column>, queries: seq<Query>)
    returns (out: seq<Value>)
    requires |queries| == |columns|
    ensures out == RowObjects(lib, rows, columns, queries)
  {
    hide RowMembers;
    out := [];
    for i := 0 to |rows|
      invariant out == RowObjects(lib, rows[..i], columns, queries)
    {
      var members := ProjectRow(lib, rows[i], columns, queries);
      assert rows[..i + 1][..i] == rows[..i];
      out := out + [Object(members)];
    }
    assert rows[..|rows|] == rows;
  }

  method ProjectRow(lib: PathLibrary, row: Value, columns: seq<Column>, queries: seq<Query>)
    returns (members: seq<Member>)
    requires |queries| == |columns|
    ensures members == RowMembers(lib, row, columns, queries)
  {
    hide Put, Collapse;
    members := [];
    for j := 0 to |columns|
      invariant members == RowMembers(lib, row, columns[..j], queries[..j])
    {
      assert columns[..j + 1][..j] == columns[..j] && queries[..j + 1][..j] == queries[..j];
      members := Put(members, columns[j].name, Collapse(lib.query(queries[j], row)));
    }
    assert columns[..|columns|] == columns && queries[..|queries|] == queries;
  }

  lemma {:induction false} ColumnErrs(lib: PathLibrary, columns: seq<Column>, n: nat)
    requires n <= |columns| && ParseColumns(lib, columns[..n]) == Err(Validation)
    ensures ParseColumns(lib, columns) == Err(Validation)
    decreases |columns| - n
  {
    if n < |columns| {
      assert columns[..n + 1][..n] == columns[..n];
      ColumnErrs(lib, columns, n + 1);
    } else {
      assert columns[..n] == columns;
    }
  }

  lemma {:induction false} ParsedColumns(lib: PathLibrary, columns: seq<Column>)
    ensures ParseColumns(lib, columns).Ok? ==> |ParseColumns(lib, columns).value| == |columns|
    ensures ParseColumns(lib, columns).Ok? <==> forall c <- columns :: lib.parse(Trim(c.path)).Some?
    ensures ParseColumns(lib, columns).Ok? ==>
              forall i | 0 <= i < |columns| ::
                lib.parse(Trim(columns[i].path)) == Some(ParseColumns(lib, columns).value[i])
    ensures ParseColumns(lib, columns).Err? ==> ParseColumns(lib, columns).error == Validation
  {
    if columns != [] {
      var init, last := columns[..|columns| - 1], columns[|columns| - 1];
      ParsedColumns(lib, init);
      assert forall c :: c in columns <==> c in init || c == last;
    }
  }

  function TableOf(lib: PathLibrary, value: Value, table: TableProjection): Result<Value, Error> {
    match lib.parse(Trim(table.base))
    case None => Err(Validation)
    case Some(base) =>
      match ParseColumns(lib, table.columns)
      case Err(e) => Err(e)
      case Ok(queries) =>
        ParsedColumns(lib, table.columns);
        Ok(Array(RowObjects(lib, lib.query(base, value), table.columns, queries)))
  }

  function RowObjects(lib: PathLibrary, rows: seq<Value>, columns: seq<Column>, queries: seq<Query>): (r: seq<Value>)
    requires |queries| == |columns|
  {
    if rows == [] then []
    else
      var n := |rows| - 1;
      RowObjects(lib, rows[..n], columns, queries) + [Object(RowMembers(lib, rows[n], columns, queries))]
  }

  lemma {:induction false} RowObjectsAt(lib: PathLibrary, rows: seq<Value>, columns: seq<Column>, queries: seq<Query>)
    requires |queries| == |columns|
    ensures var out := RowObjects(lib, rows, columns, queries);
            && |out| == |rows|
            && forall i | 0 <= i < |rows| :: out[i] == Object(RowMembers(lib, rows[i], columns, queries))
  {
    if rows != [] {
      RowObjectsAt(lib, rows[..|rows| - 1], columns, queries);
    }
  }

  ghost predicate AreCells(lib: PathLibrary, members: seq<Member>, row: Value, columns: seq<Column>,
                           queries: seq<Query>)
    requires |queries| == |columns|
  {
    && |members| == |columns|
    && forall i | 0 <= i < |columns| ::
         members[i] == Member(columns[i].name, Collapse(lib.query(queries[i], row)))
  }

  /** A column's cell goes after those of the columns before it. */
  lemma CellsSnoc(lib: PathLibrary, init: seq<Member>, row: Value, columns: seq<Column>, queries: seq<Query>)
    requires |queries| == |columns| > 0 && ColumnsOrdered(columns)
    requires AreCells(lib, init, row, columns[..|columns| - 1], queries[..|columns| - 1])
    ensures var n := |columns| - 1;
            AreCells(lib, Put(init, columns[n].name, Collapse(lib.query(queries[n], row))), row, columns, queries)
  {
    hide Put, Less, Collapse;
    var n := |columns| - 1;
    forall m <- init ensures Less(m.key, columns[n].name) {
      var i :| 0 <= i < n && init[i] == m;
      assert m.key == columns[i].name;
    }
    PutLast(init, columns[n].name, Collapse(lib.query(queries[n], row)));
  }

  lemma {:induction false} RowCells(lib: PathLibrary, row: Value, columns: seq<Column>, queries: seq<Query>)
    requires |queries| == |columns| && ColumnsOrdered(columns)
    ensures AreCells(lib, RowMembers(lib, row, columns, queries), row, columns, queries)
  {
    if columns != [] {
      var n := |columns| - 1;
      assert ColumnsOrdered(columns[..n]);
      hide AreCells, ColumnsOrdered, Put, Collapse;
      RowCells(lib, row, columns[..n], queries[..n]);
      CellsSnoc(lib, RowMembers(lib, row, columns[..n], queries[..n]), row, columns, queries);
    } else {
      assert RowMembers(lib, row, columns, queries) == [];
    }
  }

  lemma {:induction false} PutLast(members: seq<Member>, key: string, value: Value)
    requires forall m <- members :: Less(m.key, key)
    ensures Put(members, key, value) == members + [Member(key, value)]
  {
    if members != [] {
      LessTotal(members[0].key, key);
      PutLast(members[1..], key, value);
    }
  }

  /** One cell per column, in column order: what the column's path selects in the row. */
  ghost predicate IsRow(lib: PathLibrary, out: Value, row: Value, columns: seq<Column>) {
    && out.Object? && |out.members| == |columns|
    && forall j | 0 <= j < |columns| ::
         && lib.parse(Trim(columns[j].path)).Some?
         && out.members[j].key == columns[j].name
         && IsCell(out.members[j].value, lib.query(lib.parse(Trim(columns[j].path)).value, row))
  }

  lemma RowMembersAre(lib: PathLibrary, row: Value, columns: seq<Column>)
    requires ColumnsOrdered(columns) && ParseColumns(lib, columns).Ok?
    ensures |ParseColumns(lib, columns).value| == |columns|
    ensures IsRow(lib, Object(RowMembers(lib, row, columns, ParseColumns(lib, columns).value)), row, columns)
  {
    ParsedColumns(lib, columns);
    var queries := ParseColumns(lib, columns).value;
    RowCells(lib, row, columns, queries);
    hide Collapse, IsCell, Trim, ParseColumns, RowMembers;
    forall j | 0 <= j < |columns| ensures IsCell(Collapse(lib.query(queries[j], row)), lib.query(queries[j], row)) {
      CollapseIs(lib.query(queries[j], row));
    }
  }

  lemma ColumnsParse(lib: PathLibrary, table: TableProjection)
    requires ValidTable(lib, table)
    ensures lib.parse(Trim(table.base)).Some? && ParseColumns(lib, table.columns).Ok?
  {
    hide ValidPath, SplitOperator, Trim, ParseColumns;
    var paths := TablePaths(table);
    assert paths[0] == table.base;
    PlainPathParses(lib, paths[0]);
    forall i | 0 <= i < |table.columns| ensures lib.parse(Trim(table.columns[i].path)).Some? {
      assert paths[i + 1] == table.columns[i].path;
      PlainPathParses(lib, paths[i + 1]);
    }
    ParsedColumns(lib, table.columns);
  }

  /** A validated table always projects: one row object per base node, one cell per column, null
      for a missing cell and an array for several nodes. */
  lemma ValidTableProjects(lib: PathLibrary, value: Value, table: TableProjection)
    requires ValidTable(lib, table) && ColumnsOrdered(table.columns)
    ensures var base := lib.parse(Trim(table.base));
            && base.Some? && TableOf(lib, value, table).Ok? && TableOf(lib, value, table).value.Array?
            && var rows, out := lib.query(base.value, value), TableOf(lib, value, table).value.items;
            && |out| == |rows|
            && forall i | 0 <= i < |rows| :: IsRow(lib, out[i], rows[i], table.columns)
  {
    ColumnsParse(lib, table);
    hide Trim, ParseColumns, ValidTable, IsRow, RowMembers, RowObjects;
    ParsedColumns(lib, table.columns);
    var queries := ParseColumns(lib, table.columns).value;
    var rows := lib.query(lib.parse(Trim(table.base)).value, value);
    RowObjectsAt(lib, rows, table.columns, queries);
    forall i | 0 <= i < |rows|
      ensures IsRow(lib, Object(RowMembers(lib, rows[i], table.columns, queries)), rows[i], table.columns)
    {
      RowMembersAre(lib, rows[i], table.columns);
    }
  }

  /** Without an operator the path parsed is the trimmed path itself. */
  lemma PlainPathParses(lib: PathLibrary, path: string)
    requires ValidPath(lib, path) && SplitOperator(Trim(path)).1 == None
    ensures lib.parse(Trim(path)).Some?
  {
  }

  // ---------- preview paths as projections ----------

  /** Of the printed paths the library accepts the well-formed RFC 9535 queries. */
  ghost predicate FollowsGrammar(lib: PathLibrary) {
    forall steps: seq<Step> :: lib.parse(Print(steps)).Some? <==> Parse(Print(steps), Rfc).Some?
  }

  /** A printed path offered back as a projection is accepted, and taken for the path it is, exactly
      when no key on it holds a control character, its last step is not an operator word, it is short
      enough and it holds no "..": keys such as "count", "a..b" or a line break make it unusable. */
  lemma PrintedPathAccepted(lib: PathLibrary, steps: seq<Step>)
    requires FollowsGrammar(lib)
    ensures var path := Print(steps);
            ValidPath(lib, path) && SplitOperator(path) == (path, None)
            <==> && !HasControlKey(steps) && !EndsInOperatorWord(steps)
                 && Utf8Length(path) <= MAX_JSON_PATH_LEN && !HasDoubleDot(path)
  {
    hide Parse, SplitOperator, HasControlKey, EndsInOperatorWord;
    PrintedPathIsTrimmed(steps);
    PrintedPathHasNoOperator(steps);
    PrintedPathIsQuery(steps);
    assert lib.parse(Print(steps)).Some? <==> Parse(Print(steps), Rfc).Some?;
  }

  lemma PrintedPathIsTrimmed(steps: seq<Step>)
    ensures Trim(Print(steps)) == Print(steps)
  {
    var path := Print(steps);
    TrimIdentity(path);
    if steps != [] {
      var last := Segment(steps[|steps| - 1]);
      assert path[|path| - 1] == last[|last| - 1];
    }
  }
}
