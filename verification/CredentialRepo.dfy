/**
 The credential store (backend/crates/db/src/credential_repo.rs): a table of credentials and an
 append-only history. A row's id is its position, so ids are fresh; a partial unique index keeps
 one live row for each owner and alias.
 */
module CredentialRepo {
  import opened Wrappers
  import opened CredentialModel

  type Id = nat

  datatype Row = Row(
    owner: Owner,
    category: Category,
    provider: string,
    alias: string,
    target: Target,
    secret: Option<Ciphertext>,
    description: string,
    env: string,
    tags: seq<string>,
    policy: Policy,
    allowPrivateNetwork: bool,
    allowInsecureTransport: bool,
    tlsCa: Option<string>,
    deleted: bool)

  datatype Action = Register | Update | Delete

  datatype Field = Description | Env | Tags | PolicyField

  datatype Event = Event(id: Id, owner: Owner, alias: string, action: Action, version: nat, changedFields: seq<Field>)

  datatype Db = Db(rows: seq<Row>, history: seq<Event>)

  /** The values an update sets; None keeps the column. */
  datatype Patch = Patch(
    description: Option<string>,
    env: Option<string>,
    tags: Option<seq<string>>,
    policy: Option<Policy>)

  // ---------- statements ----------

  predicate IsLive(row: Row, owner: Owner, alias: string) {
    !row.deleted && row.owner == owner && row.alias == alias
  }

  /** The first row a WHERE clause matches. */
  function First(rows: seq<Row>, matches: Row -> bool): Option<Id> {
    if rows == [] then None
    else
      var before := First(rows[..|rows| - 1], matches);
      if before.Some? then before else if matches(rows[|rows| - 1]) then Some(|rows| - 1) else None
  }

  /** UPDATE ... WHERE: every matching row changes. */
  function UpdateWhere(rows: seq<Row>, matches: Row -> bool, change: Row -> Row): seq<Row> {
    seq(|rows|, i requires 0 <= i < |rows| => if matches(rows[i]) then change(rows[i]) else rows[i])
  }

  function FindLive(rows: seq<Row>, owner: Owner, alias: string): Option<Id> {
    First(rows, row => IsLive(row, owner, alias))
  }

  /** MAX(version) over the events of one owner and alias, 0 when there are none. */
  function MaxVersion(history: seq<Event>, owner: Owner, alias: string): nat {
    if history == [] then 0
    else
      var before := MaxVersion(history[..|history| - 1], owner, alias);
      var last := history[|history| - 1];
      if last.owner == owner && last.alias == alias && last.version > before then last.version else before
  }

  function NextHistoryVersion(history: seq<Event>, owner: Owner, alias: string): nat {
    MaxVersion(history, owner, alias) + 1
  }

  function EventFor(history: seq<Event>, id: Id, row: Row, action: Action, fields: seq<Field>): Event {
    Event(id, row.owner, row.alias, action, NextHistoryVersion(history, row.owner, row.alias), fields)
  }

  function Coalesce<T>(value: Option<T>, old_: T): T {
    if value.Some? then value.value else old_
  }

  function Patched(row: Row, patch: Patch): Row {
    row.(description := Coalesce(patch.description, row.description),
         env := Coalesce(patch.env, row.env),
         tags := Coalesce(patch.tags, row.tags),
         policy := Coalesce(patch.policy, row.policy))
  }

  // ---------- transactions ----------

  function Insert(db: Db, row: Row): (Db, Result<Id, Error>) {
    if FindLive(db.rows, row.owner, row.alias).Some? then (db, Err(Validation))
    else
      (Db(db.rows + [row], db.history + [EventFor(db.history, |db.rows|, row, Register, [])]), Ok(|db.rows|))
  }

  function UpdateFields(db: Db, owner: Owner, alias: string, category: Category, patch: Patch, fields: seq<Field>)
    : (Db, Result<Row, Error>)
  {
    var matches := (row: Row) => IsLive(row, owner, alias) && row.category == category;
    match First(db.rows, matches)
    case None => (db, Err(NotFound))
    case Some(id) =>
      FirstMatches(db.rows, matches);
      var rows := UpdateWhere(db.rows, matches, row => Patched(row, patch));
      (Db(rows, db.history + [EventFor(db.history, id, rows[id], Update, fields)]), Ok(rows[id]))
  }

  function Destroyed(row: Row): Row {
    row.(secret := None, deleted := true)
  }

  function SoftDelete(db: Db, owner: Owner, alias: string): (Db, Result<Row, Error>) {
    var matches := (row: Row) => IsLive(row, owner, alias);
    match First(db.rows, matches)
    case None => (db, Err(NotFound))
    case Some(id) =>
      FirstMatches(db.rows, matches);
      var rows := UpdateWhere(db.rows, matches, Destroyed);
      (Db(rows, db.history + [EventFor(db.history, id, rows[id], Delete, [])]), Ok(rows[id]))
  }

  lemma {:induction false} FirstMatches(rows: seq<Row>, matches: Row -> bool)
    ensures var r := First(rows, matches);
            && (r == None <==> forall i | 0 <= i < |rows| :: !matches(rows[i]))
            && (r.Some? ==>
                  && r.value < |rows| && matches(rows[r.value])
                  && forall i | 0 <= i < r.value :: !matches(rows[i]))
  {
    if rows != [] {
      FirstMatches(rows[..|rows| - 1], matches);
    }
  }

  // ---------- the repository object ----------

  class CredentialRepo {
    var rows: seq<Row>
    var history: seq<Event>

    function View(): Db
      reads this
    {
      Db(rows, history)
    }

    constructor ()
      ensures View() == Db([], [])
    {
      rows, history := [], [];
    }

    method InsertHistoryEvent(id: Id, row: Row, action: Action, fields: seq<Field>)
      modifies this`history
      ensures history == old(history) + [EventFor(old(history), id, row, action, fields)]
    {
      var version := NextHistoryVersion(history, row.owner, row.alias);
      history := history + [Event(id, row.owner, row.alias, action, version, fields)];
    }

    method InsertCredential(row: Row) returns (r: Result<Id, Error>)
      modifies this
      ensures (View(), r) == Insert(old(View()), row)
    {
      if FindLive(rows, row.owner, row.alias).Some? {
        return Err(Validation);
      }
      var id := |rows|;
      rows := rows + [row];
      InsertHistoryEvent(id, row, Register, []);
      r := Ok(id);
    }

    method FindCredentialByAlias(owner: Owner, alias: string) returns (r: Option<Row>)
      ensures r.Some? <==> FindLive(rows, owner, alias).Some?
      ensures r.Some? ==> IsLive(r.value, owner, alias) && FindLive(rows, owner, alias).value < |rows|
                          && r.value == rows[FindLive(rows, owner, alias).value]
    {
      FirstMatches(rows, row => IsLive(row, owner, alias));
      var id := FindLive(rows, owner, alias);
      r := if id.Some? then Some(rows[id.value]) else None;
    }

    method UpdateCredentialMutableFields(owner: Owner, alias: string, category: Category, patch: Patch,
                                         fields: seq<Field>)
      returns (r: Result<Row, Error>)
      modifies this
      ensures (View(), r) == UpdateFields(old(View()), owner, alias, category, patch, fields)
    {
      var matches := (row: Row) => IsLive(row, owner, alias) && row.category == category;
      var id := First(rows, matches);
      if id == None {
        return Err(NotFound);
      }
      FirstMatches(rows, matches);
      rows := UpdateWhere(rows, matches, row => Patched(row, patch));
      InsertHistoryEvent(id.value, rows[id.value], Update, fields);
      r := Ok(rows[id.value]);
    }

    method SoftDeleteCredential(owner: Owner, alias: string) returns (r: Result<Row, Error>)
      modifies this
      ensures (View(), r) == SoftDelete(old(View()), owner, alias)
    {
      var matches := (row: Row) => IsLive(row, owner, alias);
      var id := First(rows, matches);
      if id == None {
        return Err(NotFound);
      }
      FirstMatches(rows, matches);
      rows := UpdateWhere(rows, matches, Destroyed);
      InsertHistoryEvent(id.value, rows[id.value], Delete, []);
      r := Ok(rows[id.value]);
    }
  }
}
