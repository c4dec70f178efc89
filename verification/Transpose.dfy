/** Turning result rows into columns: `transpose_rows` (backend/crates/service/src/sql_query/output.rs). */
module Transpose {
  import opened Wrappers
  import opened Json
  import opened Projection

  // ---------- reference ----------

  /** The names of a row not seen before, in the row's order. */
  function NewNames(seen: seq<string>, members: seq<Member>): seq<string> {
    if members == [] then []
    else
      var before := NewNames(seen, members[..|members| - 1]);
      var key := members[|members| - 1].key;
      if key in seen || key in before then before else before + [key]
  }

  /** Column names in the order they first appear. */
  function ColumnNames(rows: seq<Value>): seq<string> {
    if rows == [] then []
    else
      var before := ColumnNames(rows[..|rows| - 1]);
      var last := rows[|rows| - 1];
      if last.Object? then before + NewNames(before, last.members) else before
  }

  /** A row's entry in a column: its member, or null. */
  function Cell(row: Value, name: string): Value {
    if row.Object? then Lookup(row.members, name).UnwrapOr(Null) else Null
  }

  function Column(rows: seq<Value>, name: string): seq<Value> {
    seq(|rows|, i requires 0 <= i < |rows| => Cell(rows[i], name))
  }

  /** `Vec::resize` with nulls. */
  function Resize(values: seq<Value>, n: nat): seq<Value> {
    if |values| >= n then values[..n] else values + seq(n - |values|, i => Null)
  }

  /** An object maps each key once. */
  ghost predicate RowOk(row: Value) {
    row.Object? ==> DistinctKeysIn(row.members)
  }

  lemma {:induction false} LookupAt(members: seq<Member>, j: nat)
    requires DistinctKeysIn(members) && j < |members|
    ensures Lookup(members, members[j].key) == Some(members[j].value)
  {
    if j > 0 {
      assert members[0].key != members[j].key;
      LookupAt(members[1..], j - 1);
    }
  }

  lemma {:induction false} LookupMissing(members: seq<Member>, key: string)
    requires forall m <- members :: m.key != key
    ensures Lookup(members, key) == None
  {
    if members != [] {
      LookupMissing(members[1..], key);
    }
  }

  ghost predicate HasKey(members: seq<Member>, name: string) {
    exists m <- members :: m.key == name
  }

  ghost predicate HasMember(row: Value, name: string) {
    row.Object? && HasKey(row.members, name)
  }

  lemma {:induction false} NewNamesAre(seen: seq<string>, members: seq<Member>)
    ensures forall name :: name in NewNames(seen, members) <==> name !in seen && HasKey(members, name)
    ensures NoDuplicates(NewNames(seen, members))
  {
    if members != [] {
      var init, last := members[..|members| - 1], members[|members| - 1];
      NewNamesAre(seen, init);
      assert forall m :: m in members <==> m in init || m == last;
    }
  }

  ghost predicate NoDuplicates(names: seq<string>) {
    forall i, j | 0 <= i < j < |names| :: names[i] != names[j]
  }

  ghost predicate SomeRowHas(rows: seq<Value>, name: string) {
    exists row <- rows :: HasMember(row, name)
  }

  lemma SomeRowHasSnoc(rows: seq<Value>, name: string)
    requires rows != []
    ensures SomeRowHas(rows, name) <==> SomeRowHas(rows[..|rows| - 1], name) || HasMember(rows[|rows| - 1], name)
  {
    hide HasMember;
    var init, last := rows[..|rows| - 1], rows[|rows| - 1];
    assert last in rows && forall row :: row in rows <==> row in init || row == last;
  }

  /** The columns are the keys of the rows, each once, and a longer result keeps the columns of a
      shorter one in front. */
  lemma {:induction false} ColumnNamesAre(rows: seq<Value>)
    ensures NoDuplicates(ColumnNames(rows))
    ensures forall name :: name in ColumnNames(rows) <==> SomeRowHas(rows, name)
    ensures rows != [] ==> ColumnNames(rows[..|rows| - 1]) <= ColumnNames(rows)
  {
    if rows != [] {
      var init, last := rows[..|rows| - 1], rows[|rows| - 1];
      ColumnNamesAre(init);
      hide HasKey, NewNames, SomeRowHas;
      forall name ensures SomeRowHas(rows, name) <==> SomeRowHas(init, name) || HasMember(last, name) {
        SomeRowHasSnoc(rows, name);
      }
      if last.Object? {
        var before, added := ColumnNames(init), NewNames(ColumnNames(init), last.members);
        NewNamesAre(before, last.members);
        assert forall i | 0 <= i < |before| :: before[i] in before;
        assert forall j | 0 <= j < |added| :: added[j] in added && added[j] !in before;
      }
    }
  }

  ghost predicate AppearsAt(rows: seq<Value>, name: string, r: nat, k: nat) {
    r < |rows| && rows[r].Object? && k < |rows[r].members| && rows[r].members[k].key == name
  }

  /** `name` stands at (r, k), ahead of wherever `other` stands. */
  ghost predicate AppearsBefore(rows: seq<Value>, name: string, r: nat, k: nat, other: string) {
    && AppearsAt(rows, name, r, k)
    && forall r': nat, k': nat :: AppearsAt(rows, other, r', k') ==> r < r' || (r == r' && k < k')
  }

  ghost predicate StandsBefore(members: seq<Member>, name: string, k: nat, other: string) {
    && k < |members| && members[k].key == name
    && forall k' | 0 <= k' < |members| && members[k'].key == other :: k < k'
  }

  lemma {:induction false} NewNamesInOrder(seen: seq<string>, members: seq<Member>, i: nat, j: nat)
    requires i < j < |NewNames(seen, members)|
    ensures exists k: nat ::
              StandsBefore(members, NewNames(seen, members)[i], k, NewNames(seen, members)[j])
  {
    var init, last := members[..|members| - 1], members[|members| - 1];
    var added, before := NewNames(seen, members), NewNames(seen, init);
    NewNamesAre(seen, init);
    if j < |before| {
      NewNamesInOrder(seen, init, i, j);
      var k: nat :| StandsBefore(init, before[i], k, before[j]);
      assert StandsBefore(members, added[i], k, added[j]);
    } else {
      assert added == before + [last.key] && before[i] in before && last.key !in before;
      hide NewNames;
      assert added[i] == before[i] && added[j] == last.key;
      LastNameIsLast(init, last, before[i]);
      assert init + [last] == members;
    }
  }

  lemma LastNameIsLast(init: seq<Member>, last: Member, name: string)
    requires HasKey(init, name) && !HasKey(init, last.key)
    ensures exists k: nat :: StandsBefore(init + [last], name, k, last.key)
  {
    var members := init + [last];
    var m :| m in init && m.key == name;
    var k :| 0 <= k < |init| && init[k] == m;
    assert forall k' | 0 <= k' < |init| :: init[k'] in init && members[k'] == init[k'];
    assert StandsBefore(members, name, k, last.key);
  }

  /** A name that is no column yet appears in none of the rows before. */
  lemma NotBefore(init: seq<Value>, name: string, rows: seq<Value>, r: nat, k: nat)
    requires init <= rows && name !in ColumnNames(init) && AppearsAt(rows, name, r, k)
    ensures r >= |init|
  {
    ColumnNamesAre(init);
    if r < |init| {
      assert init[r] in init && init[r].members[k] in init[r].members;
      assert HasMember(init[r], name);
    }
  }

  /** A name of an earlier row stands ahead of a name new in the last row. */
  lemma EarlierRowFirst(rows: seq<Value>, name: string, other: string)
    requires rows != [] && name in ColumnNames(rows[..|rows| - 1]) && other !in ColumnNames(rows[..|rows| - 1])
    ensures exists r: nat, k: nat :: AppearsBefore(rows, name, r, k, other)
  {
    var init := rows[..|rows| - 1];
    ColumnNamesAre(init);
    hide ColumnNames;
    assert SomeRowHas(init, name);
    var row :| row in init && HasMember(row, name);
    var r :| 0 <= r < |init| && init[r] == row;
    var m :| m in row.members && m.key == name;
    var k :| 0 <= k < |row.members| && row.members[k] == m;
    forall r': nat, k': nat | AppearsAt(rows, other, r', k') ensures r' >= |init| {
      NotBefore(init, other, rows, r', k');
    }
    assert AppearsBefore(rows, name, r, k, other);
  }

  /** Two names new in the last row stand as in that row. */
  lemma NewNamesAppearInOrder(rows: seq<Value>, i: nat, j: nat)
    requires rows != [] && rows[|rows| - 1].Object?
    requires i < j < |NewNames(ColumnNames(rows[..|rows| - 1]), rows[|rows| - 1].members)|
    ensures var added := NewNames(ColumnNames(rows[..|rows| - 1]), rows[|rows| - 1].members);
            exists r: nat, k: nat :: AppearsBefore(rows, added[i], r, k, added[j])
  {
    var init, members := rows[..|rows| - 1], rows[|rows| - 1].members;
    var added := NewNames(ColumnNames(init), members);
    NewNamesAre(ColumnNames(init), members);
    NewNamesInOrder(ColumnNames(init), members, i, j);
    hide ColumnNames, NewNames;
    var k: nat :| StandsBefore(members, added[i], k, added[j]);
    assert added[j] in added;
    forall r': nat, k': nat | AppearsAt(rows, added[j], r', k') ensures r' >= |init| {
      NotBefore(init, added[j], rows, r', k');
    }
    assert AppearsBefore(rows, added[i], |init|, k, added[j]);
  }

  lemma AppearsBeforeStays(rows: seq<Value>, name: string, r: nat, k: nat, other: string)
    requires rows != [] && AppearsBefore(rows[..|rows| - 1], name, r, k, other)
    ensures AppearsBefore(rows, name, r, k, other)
  {
    var init := rows[..|rows| - 1];
    assert AppearsAt(init, name, r, k);
    forall r': nat, k': nat | AppearsAt(rows, other, r', k') ensures r < r' || (r == r' && k < k') {
      assert r' < |init| ==> AppearsAt(init, other, r', k');
    }
  }

  /** Columns stand in the order their names first appear, row by row and within a row. */
  lemma {:induction false} FirstAppearanceOrder(rows: seq<Value>, i: nat, j: nat)
    requires i < j < |ColumnNames(rows)|
    ensures exists r: nat, k: nat :: AppearsBefore(rows, ColumnNames(rows)[i], r, k, ColumnNames(rows)[j])
  {
    hide AppearsBefore, NewNames;
    var init, last := rows[..|rows| - 1], rows[|rows| - 1];
    var names, before := ColumnNames(rows), ColumnNames(init);
    if j < |before| {
      FirstAppearanceOrder(init, i, j);
      var r: nat, k: nat :| AppearsBefore(init, before[i], r, k, before[j]);
      AppearsBeforeStays(rows, before[i], r, k, before[j]);
      assert before <= names && names[i] == before[i] && names[j] == before[j];
    } else {
      var added := NewNames(before, last.members);
      assert names == before + added;
      NewNamesAre(before, last.members);
      assert names[j] == added[j - |before|] && names[j] in added;
      if i < |before| {
        assert names[i] in before;
        EarlierRowFirst(rows, names[i], names[j]);
      } else {
        assert names[i] == added[i - |before|];
        NewNamesAppearInOrder(rows, i - |before|, j - |before|);
      }
    }
  }

  // ---------- the algorithm ----------

  /** A column under construction: entries past its end are still to be filled with null. */
  ghost predicate Partial(values: seq<Value>, rows: seq<Value>, name: string) {
    |values| <= |rows| && Resize(values, |rows|) == Column(rows, name)
  }

  ghost predicate TableOk(columns: map<string, seq<Value>>, names: seq<string>, rows: seq<Value>) {
    && names == ColumnNames(rows)
    && (forall name :: name in columns <==> name in names)
    && (forall name <- columns :: Partial(columns[name], rows, name))
  }

  method TransposeRows(rows: seq<Value>) returns (r: Result<(Value, seq<string>), Error>)
    requires forall row <- rows :: RowOk(row)
    ensures r.Err? <==> exists row <- rows :: !row.Object?
    ensures r.Ok? ==>
              && r.value.1 == ColumnNames(rows)
              && r.value.0.Object? && Ascending(r.value.0.members)
              && (forall name :: Lookup(r.value.0.members, name)
                                 == if name in ColumnNames(rows) then Some(Array(Column(rows, name))) else None)
  {
    var names: seq<string> := [];
    var columns: map<string, seq<Value>> := map[];
    for i := 0 to |rows|
      invariant forall k | 0 <= k < i :: rows[k].Object?
      invariant TableOk(columns, names, rows[..i])
    {
      var row := rows[i];
      if !row.Object? {
        return Err(Internal);
      }
      names, columns := AddRow(names, columns, i, row, rows[..i]);
      assert rows[..i] + [row] == rows[..i + 1];
    }
    assert rows[..|rows|] == rows;
    var members := AssembleColumns(names, columns, rows);
    r := Ok((Object(members), names));
  }

  /** The JSON object of the finished columns, each padded to the number of rows. */
  method AssembleColumns(names: seq<string>, columns: map<string, seq<Value>>, rows: seq<Value>)
    returns (members: seq<Member>)
    requires TableOk(columns, names, rows)
    ensures Ascending(members)
    ensures forall name :: Lookup(members, name) == if name in names then Some(Array(Column(rows, name))) else None
  {
    hide ColumnNames, Column, Ascending, Put, Lookup;
    members := [];
    NothingYet();
    for i := 0 to |names|
      invariant Ascending(members)
      invariant forall name ::
                  Lookup(members, name) == if name in names[..i] then Some(Array(Column(rows, name))) else None
    {
      var values := Resize(columns[names[i]], |rows|);
      PutAscends(members, names[i], Array(values));
      forall name ensures Lookup(Put(members, names[i], Array(values)), name)
                          == if name == names[i] then Some(Array(values)) else Lookup(members, name)
      {
        PutLookup(members, names[i], Array(values), name);
      }
      members := Put(members, names[i], Array(values));
      assert names[..i + 1] == names[..i] + [names[i]];
    }
    assert names[..|names|] == names;
  }

  lemma NothingYet()
    ensures Ascending([]) && forall name :: Lookup([], name) == None
  {
  }

  /** Column `name` while row `rows` + [row] is being added and its first j members are in. */
  ghost predicate AddedUpTo(values: seq<Value>, rows: seq<Value>, row: Value, j: nat, name: string)
    requires row.Object? && j <= |row.members|
  {
    if exists k | 0 <= k < j :: row.members[k].key == name
    then values == Column(rows + [row], name)
    else Partial(values, rows, name)
  }

  /** Pad to the row's index and push; the column is never longer than that, so nothing is cut. */
  function PushAt(values: seq<Value>, rowIndex: nat, value: Value): seq<Value>
    requires |values| <= rowIndex
  {
    Resize(values, rowIndex) + [value]
  }

  lemma AbsentColumn(rows: seq<Value>, name: string)
    requires name !in ColumnNames(rows)
    ensures Partial([], rows, name)
  {
    ColumnNamesAre(rows);
    forall i | 0 <= i < |rows| ensures Cell(rows[i], name) == Null {
      assert rows[i] in rows;
      if rows[i].Object? {
        assert !HasMember(rows[i], name);
        LookupMissing(rows[i].members, name);
      }
    }
  }

  lemma PushedColumn(values: seq<Value>, rows: seq<Value>, row: Value, name: string)
    requires Partial(values, rows, name)
    ensures PushAt(values, |rows|, Cell(row, name)) == Column(rows + [row], name)
  {
    assert Column(rows + [row], name)[..|rows|] == Column(rows, name);
  }

  /** The table while `row` is being added after `rows` and its first j members are in. */
  ghost predicate RowUpTo(columns: map<string, seq<Value>>, names: seq<string>, rows: seq<Value>, row: Value, j: nat)
    requires row.Object? && j <= |row.members|
  {
    && names == ColumnNames(rows) + NewNames(ColumnNames(rows), row.members[..j])
    && (forall name :: name in columns <==> name in names)
    && (forall name <- columns :: AddedUpTo(columns[name], rows, row, j, name))
  }

  /** Pushing row's j-th member completes its column, whether the column existed or not. */
  lemma MemberPushed(columns: map<string, seq<Value>>, names: seq<string>, rows: seq<Value>, row: Value, j: nat)
    requires row.Object? && RowOk(row) && j < |row.members| && RowUpTo(columns, names, rows, row, j)
    ensures var Member(name, value) := row.members[j];
            var values := if name in columns then columns[name] else [];
            && |values| <= |rows|
            && PushAt(values, |rows|, value) == Column(rows + [row], name)
  {
    var Member(name, value) := row.members[j];
    LookupAt(row.members, j);
    NewNamesAre(ColumnNames(rows), row.members[..j]);
    hide PushAt, Column, Resize, ColumnNames, Lookup, NewNames;
    if name !in columns {
      assert name !in ColumnNames(rows);
      AbsentColumn(rows, name);
    }
    PushedColumn(if name in columns then columns[name] else [], rows, row, name);
  }

  lemma MemberStep(columns: map<string, seq<Value>>, names: seq<string>, rows: seq<Value>, row: Value, j: nat,
                   values: seq<Value>)
    requires row.Object? && RowOk(row) && j < |row.members| && RowUpTo(columns, names, rows, row, j)
    requires values == Column(rows + [row], row.members[j].key)
    ensures var name := row.members[j].key;
            RowUpTo(columns[name := values], if name in columns then names else names + [name], rows, row, j + 1)
  {
    var members, name := row.members, row.members[j].key;
    assert members[..j + 1][..j] == members[..j];
    assert members[..j + 1][j] == members[j];
    hide Column, Partial, ColumnNames;
  }

  lemma RowStarts(columns: map<string, seq<Value>>, names: seq<string>, rows: seq<Value>, row: Value)
    requires row.Object? && TableOk(columns, names, rows)
    ensures RowUpTo(columns, names, rows, row, 0)
  {
  }

  /** A column the row has no member for stays short by one more. */
  lemma ColumnEnds(values: seq<Value>, rows: seq<Value>, row: Value, name: string)
    requires row.Object? && RowOk(row) && AddedUpTo(values, rows, row, |row.members|, name)
    ensures Partial(values, rows + [row], name)
  {
    if forall m <- row.members :: m.key != name {
      LookupMissing(row.members, name);
      assert Column(rows + [row], name) == Column(rows, name) + [Null];
    }
  }

  lemma RowEnds(columns: map<string, seq<Value>>, names: seq<string>, rows: seq<Value>, row: Value)
    requires row.Object? && RowOk(row) && RowUpTo(columns, names, rows, row, |row.members|)
    ensures TableOk(columns, names, rows + [row])
  {
    hide Partial, AddedUpTo, RowOk;
    assert row.members[..|row.members|] == row.members;
    assert (rows + [row])[..|rows|] == rows;
    forall name <- columns ensures Partial(columns[name], rows + [row], name) {
      ColumnEnds(columns[name], rows, row, name);
    }
  }

  method AddRow(names: seq<string>, columns: map<string, seq<Value>>, rowIndex: nat, row: Value, ghost rows: seq<Value>)
    returns (names': seq<string>, columns': map<string, seq<Value>>)
    requires row.Object? && RowOk(row) && rowIndex == |rows| && TableOk(columns, names, rows)
    ensures TableOk(columns', names', rows + [row])
  {
    hide TableOk, RowUpTo, PushAt, Column, RowOk;
    names', columns' := names, columns;
    RowStarts(columns, names, rows, row);
    for j := 0 to |row.members|
      invariant RowUpTo(columns', names', rows, row, j)
    {
      var Member(name, value) := row.members[j];
      MemberPushed(columns', names', rows, row, j);
      MemberStep(columns', names', rows, row, j, Column(rows + [row], name));
      if name in columns' {
        columns' := columns'[name := PushAt(columns'[name], rowIndex, value)];
      } else {
        names' := names' + [name];
        columns' := columns'[name := PushAt([], rowIndex, value)];
      }
    }
    RowEnds(columns', names', rows, row);
  }
}
