/**
 Whole runs of credential operations: what every reachable store satisfies, whatever the owners
 register, update and delete, one operation at a time.
 */
module CredentialRuns {
  import opened Wrappers
  import opened Text
  import opened CredentialModel
  import opened CredentialRepo
  import opened CredentialService

  datatype Op =
    | OpRegister(owner: Owner, register: RegisterInput)
    | OpUpdate(owner: Owner, update: UpdateInput, category: Category)
    | OpDelete(owner: Owner, alias: string, reason: string)

  /** The store after one operation; a refused operation changes nothing. */
  function Exec(rules: Rules, db: Db, op: Op): Db {
    match op
    case OpRegister(owner, input) => RegisterOp(rules, db, owner, input).0
    case OpUpdate(owner, input, category) => UpdateOp(rules, db, owner, input, category).0
    case OpDelete(owner, alias, reason) => DeleteOp(rules, db, owner, alias, reason).0
  }

  const EMPTY_DB := Db([], [])

  function Run(rules: Rules, ops: seq<Op>): Db {
    if ops == [] then EMPTY_DB else Exec(rules, Run(rules, ops[..|ops| - 1]), ops[|ops| - 1])
  }

  // ---------- the invariant ----------

  /** The events of one owner and alias, in order. */
  ghost function EventsOf(history: seq<Event>, owner: Owner, alias: string): seq<Event> {
    if history == [] then []
    else
      EventsOf(history[..|history| - 1], owner, alias)
      + if history[|history| - 1].owner == owner && history[|history| - 1].alias == alias
        then [history[|history| - 1]] else []
  }

  ghost predicate VersionsCount(events: seq<Event>) {
    forall i | 0 <= i < |events| :: events[i].version == i + 1
  }

  /** (register update* delete)* with an optional open tail: whether the sequence is of that form,
      and whether its tail is open. */
  ghost function Shape(events: seq<Event>): Option<bool> {
    if events == [] then Some(false)
    else
      match (Shape(events[..|events| - 1]), events[|events| - 1].action)
      case (Some(false), Register) => Some(true)
      case (Some(true), Update) => Some(true)
      case (Some(true), Delete) => Some(false)
      case _ => None
  }

  ghost predicate HistoryOk(db: Db, owner: Owner, alias: string) {
    var events := EventsOf(db.history, owner, alias);
    && VersionsCount(events)
    && Shape(events) == Some(FindLive(db.rows, owner, alias).Some?)
  }

  ghost predicate OneLive(rows: seq<Row>) {
    forall i, j | 0 <= i < |rows| && 0 <= j < |rows| && !rows[i].deleted && !rows[j].deleted
                  && rows[i].owner == rows[j].owner && rows[i].alias == rows[j].alias :: i == j
  }

  /** A live row holds its own secret, of its category; a deleted row holds no secret. */
  ghost predicate SealedOk(row: Row) {
    if row.deleted then row.secret == None
    else
      && row.secret.Some? && row.secret.value.alias == row.alias
      && (row.secret.value.secret.HttpSecret? <==> row.category == Http)
      && (row.target.HttpTarget? <==> row.category == Http)
      && ValidAlias(row.alias)
  }

  /** The header names sealed in a row. */
  ghost function SealedNames(row: Row): seq<string> {
    if row.secret.Some? && row.secret.value.secret.HttpSecret? then HeaderNames(row.secret.value.secret.headers) else []
  }

  /** A live HTTP row's policy never allows one of its sealed header names. */
  ghost predicate HeaderRule(row: Row) {
    !row.deleted && row.category == Http ==> NoOverlap(row.policy, SealedNames(row))
  }

  ghost predicate StoreOk(db: Db) {
    && OneLive(db.rows)
    && (forall row <- db.rows :: SealedOk(row))
    && (forall owner, alias :: HistoryOk(db, owner, alias))
  }

  ghost predicate Inv(db: Db) {
    StoreOk(db) && forall row <- db.rows :: HeaderRule(row)
  }

  // ---------- history ----------

  lemma EventsOfSnoc(history: seq<Event>, e: Event, owner: Owner, alias: string)
    ensures EventsOf(history + [e], owner, alias)
            == EventsOf(history, owner, alias) + if e.owner == owner && e.alias == alias then [e] else []
  {
    assert (history + [e])[..|history|] == history;
  }

  lemma {:induction false} MaxVersionIsCount(history: seq<Event>, owner: Owner, alias: string)
    requires VersionsCount(EventsOf(history, owner, alias))
    ensures MaxVersion(history, owner, alias) == |EventsOf(history, owner, alias)|
  {
    if history != [] {
      var init := history[..|history| - 1];
      var events, before := EventsOf(history, owner, alias), EventsOf(init, owner, alias);
      assert forall i | 0 <= i < |before| :: before[i] == events[i];
      MaxVersionIsCount(init, owner, alias);
      var last := history[|history| - 1];
      if last.owner == owner && last.alias == alias {
        assert events[|events| - 1] == last;
      } else {
        assert events == before;
      }
    }
  }

  lemma ShapeSnoc(events: seq<Event>, e: Event)
    requires VersionsCount(events) && e.version == |events| + 1 && Shape(events).Some?
    requires Shape(events).value <==> e.action != Register
    ensures VersionsCount(events + [e]) && Shape(events + [e]) == Some(e.action != Delete)
  {
    assert (events + [e])[..|events|] == events;
  }

  /** Appending the right event keeps one owner's and alias's history in shape. */
  lemma AppendEvent(db: Db, rows: seq<Row>, id: Id, row: Row, action: Action, fields: seq<Field>, owner: Owner,
                    alias: string)
    requires HistoryOk(db, owner, alias)
    requires row.owner == owner && row.alias == alias ==>
               (action == Register <==> FindLive(db.rows, owner, alias) == None)
               && (action != Delete <==> FindLive(rows, owner, alias).Some?)
    requires row.owner != owner || row.alias != alias ==>
               FindLive(rows, owner, alias).Some? == FindLive(db.rows, owner, alias).Some?
    ensures HistoryOk(Db(rows, db.history + [EventFor(db.history, id, row, action, fields)]), owner, alias)
  {
    var e := EventFor(db.history, id, row, action, fields);
    var events := EventsOf(db.history, owner, alias);
    hide EventsOf, MaxVersion, Shape, FindLive;
    EventsOfSnoc(db.history, e, owner, alias);
    if row.owner == owner && row.alias == alias {
      MaxVersionIsCount(db.history, owner, alias);
      ShapeSnoc(events, e);
    } else {
      assert events + [] == events;
    }
  }

  // ---------- rows ----------

  lemma FindLiveIff(rows: seq<Row>, owner: Owner, alias: string)
    ensures var r := FindLive(rows, owner, alias);
            && (r.Some? <==> exists i :: 0 <= i < |rows| && IsLive(rows[i], owner, alias))
            && (r.Some? ==> r.value < |rows| && IsLive(rows[r.value], owner, alias))
  {
    FirstMatches(rows, row => IsLive(row, owner, alias));
  }

  /** With one live row per key, an UPDATE changes that row only. */
  lemma UpdateOneRow(rows: seq<Row>, id: nat, matches: Row -> bool, change: Row -> Row)
    requires OneLive(rows) && id < |rows| && matches(rows[id])
    requires forall row :: matches(row) ==> IsLive(row, rows[id].owner, rows[id].alias)
    ensures UpdateWhere(rows, matches, change) == rows[id := change(rows[id])]
  {
  }

  // ---------- each operation keeps the invariant ----------

  lemma InsertKeepsStore(db: Db, row: Row)
    requires StoreOk(db) && SealedOk(row) && !row.deleted
    ensures StoreOk(Insert(db, row).0)
  {
    FindLiveIff(db.rows, row.owner, row.alias);
    if FindLive(db.rows, row.owner, row.alias) == None {
      var rows := db.rows + [row];
      assert OneLive(rows);
      forall owner, alias ensures HistoryOk(Insert(db, row).0, owner, alias) {
        FindLiveIff(db.rows, owner, alias);
        FindLiveIff(rows, owner, alias);
        assert IsLive(rows[|db.rows|], row.owner, row.alias);
        assert forall i | 0 <= i < |db.rows| :: rows[i] == db.rows[i];
        AppendEvent(db, rows, |db.rows|, row, Register, [], owner, alias);
      }
    }
  }

  /** Replacing one live row by one of the same key, live or deleted. */
  lemma ReplaceKeepsStore(db: Db, id: nat, row: Row, fields: seq<Field>)
    requires StoreOk(db) && id < |db.rows| && !db.rows[id].deleted && SealedOk(row)
    requires row.owner == db.rows[id].owner && row.alias == db.rows[id].alias
    ensures var action := if row.deleted then Delete else Update;
            StoreOk(Db(db.rows[id := row], db.history + [EventFor(db.history, id, row, action, fields)]))
  {
    var rows := db.rows[id := row];
    var action := if row.deleted then Delete else Update;
    var db' := Db(rows, db.history + [EventFor(db.history, id, row, action, fields)]);
    assert OneLive(rows);
    forall owner, alias ensures HistoryOk(db', owner, alias) {
      FindLiveIff(db.rows, owner, alias);
      FindLiveIff(rows, owner, alias);
      if row.owner == owner && row.alias == alias {
        assert IsLive(db.rows[id], owner, alias);
        assert !row.deleted ==> IsLive(rows[id], owner, alias);
      } else {
        assert forall i | 0 <= i < |rows| :: IsLive(rows[i], owner, alias) <==> IsLive(db.rows[i], owner, alias);
      }
      AppendEvent(db, rows, id, row, action, fields, owner, alias);
    }
  }

  /** A successful update, seen from outside: the live row becomes the planned record, one history
      event lists exactly the differing fields, and nothing else moves. */
  lemma UpdateEffect(rules: Rules, db: Db, owner: Owner, raw: UpdateInput, category: Category)
    requires StoreOk(db) && UpdateOp(rules, db, owner, raw, category).1.Ok?
    ensures var (db', r) := UpdateOp(rules, db, owner, raw, category);
            var found := FindLive(db.rows, owner, Trim(raw.alias));
            && found.Some? && found.value < |db.rows|
            && var before := db.rows[found.value];
            && before.category == category
            && var next := Planned(before, NormalizeUpdate(raw, category, rules.upper));
            && r.value == next != before
            && db'.rows == db.rows[found.value := next]
            && db'.history
               == db.history + [EventFor(db.history, found.value, next, Update, ChangedFields(before, next))]
            && (category == Http && raw.policy.Some? ==>
                  CheckOverlap(before.alias, before.secret, next.policy).Ok?)
            && (raw.policy == None ==> next.policy == before.policy)
  {
    hide NormalizePolicy, NormalizeTags, ValidAlias;
    var alias := Trim(raw.alias);
    FindLiveIff(db.rows, owner, alias);
    var id := FindLive(db.rows, owner, alias).value;
    var before := db.rows[id];
    var plan := PlanUpdate(rules, before, raw, category).value;
    PlanIsExact(rules, before, raw, category);
    var matches := (row: Row) => IsLive(row, owner, alias) && row.category == category;
    FirstMatches(db.rows, matches);
    assert matches(before);
    var first := First(db.rows, matches).value;
    assert first == id;
    UpdateOneRow(db.rows, id, matches, row => Patched(row, plan.patch));
  }

  lemma DeleteEffect(rules: Rules, db: Db, owner: Owner, rawAlias: string, reason: string)
    requires StoreOk(db) && DeleteOp(rules, db, owner, rawAlias, reason).1.Ok?
    ensures var (db', r) := DeleteOp(rules, db, owner, rawAlias, reason);
            var found := FindLive(db.rows, owner, Trim(rawAlias));
            && found.Some? && found.value < |db.rows|
            && var gone := db.rows[found.value].(secret := None, deleted := true);
            && r.value == gone
            && db'.rows == db.rows[found.value := gone]
            && db'.history == db.history + [EventFor(db.history, found.value, gone, Delete, [])]
  {
    hide ValidAlias;
    var alias := Trim(rawAlias);
    var matches := (row: Row) => IsLive(row, owner, alias);
    FindLiveIff(db.rows, owner, alias);
    FirstMatches(db.rows, matches);
    UpdateOneRow(db.rows, First(db.rows, matches).value, matches, Destroyed);
  }

  lemma RegisterKeepsStore(rules: Rules, db: Db, owner: Owner, raw: RegisterInput)
    requires StoreOk(db)
    ensures StoreOk(RegisterOp(rules, db, owner, raw).0)
  {
    hide NormalizeRegister;
    var input := NormalizeRegister(raw, rules.upper);
    if RegisterAccepted(rules, input) {
      InsertKeepsStore(db, NewRow(owner, input));
    }
  }

  lemma UpdateKeepsStore(rules: Rules, db: Db, owner: Owner, raw: UpdateInput, category: Category)
    requires StoreOk(db)
    ensures StoreOk(UpdateOp(rules, db, owner, raw, category).0)
  {
    hide NormalizeUpdate, PlanUpdate, ValidAlias;
    if UpdateOp(rules, db, owner, raw, category).1.Ok? {
      UpdateEffect(rules, db, owner, raw, category);
      var id := FindLive(db.rows, owner, Trim(raw.alias)).value;
      FindLiveIff(db.rows, owner, Trim(raw.alias));
      var before := db.rows[id];
      var next := Planned(before, NormalizeUpdate(raw, category, rules.upper));
      assert before in db.rows && SealedOk(before);
      assert SealedOk(next);
      ReplaceKeepsStore(db, id, next, ChangedFields(before, next));
    }
  }

  lemma DeleteKeepsStore(rules: Rules, db: Db, owner: Owner, rawAlias: string, reason: string)
    requires StoreOk(db)
    ensures StoreOk(DeleteOp(rules, db, owner, rawAlias, reason).0)
  {
    if DeleteOp(rules, db, owner, rawAlias, reason).1.Ok? {
      DeleteEffect(rules, db, owner, rawAlias, reason);
      FindLiveIff(db.rows, owner, Trim(rawAlias));
      var id := FindLive(db.rows, owner, Trim(rawAlias)).value;
      ReplaceKeepsStore(db, id, Destroyed(db.rows[id]), []);
    }
  }

  lemma ExecKeepsStore(rules: Rules, db: Db, op: Op)
    requires StoreOk(db)
    ensures StoreOk(Exec(rules, db, op))
  {
    match op
    case OpRegister(owner, input) => RegisterKeepsStore(rules, db, owner, input);
    case OpUpdate(owner, input, category) => UpdateKeepsStore(rules, db, owner, input, category);
    case OpDelete(owner, alias, reason) => DeleteKeepsStore(rules, db, owner, alias, reason);
  }

  // ---------- each operation keeps the header rule, row by row ----------

  ghost predicate RuleAt(rows: seq<Row>, i: nat) {
    i < |rows| ==> HeaderRule(rows[i])
  }

  lemma RegisterKeepsRule(rules: Rules, db: Db, owner: Owner, raw: RegisterInput, i: nat)
    requires RuleAt(db.rows, i)
    ensures RuleAt(RegisterOp(rules, db, owner, raw).0.rows, i)
  {
    hide NormalizeRegister;
    var input := NormalizeRegister(raw, rules.upper);
    if RegisterAccepted(rules, input) {
      assert HeaderRule(NewRow(owner, input));
    }
  }

  lemma UpdateKeepsRule(rules: Rules, db: Db, owner: Owner, raw: UpdateInput, category: Category, i: nat)
    requires StoreOk(db) && RuleAt(db.rows, i)
    ensures RuleAt(UpdateOp(rules, db, owner, raw, category).0.rows, i)
  {
    hide NormalizeUpdate, PlanUpdate, ValidAlias, StoreOk;
    if UpdateOp(rules, db, owner, raw, category).1.Ok? {
      UpdateEffect(rules, db, owner, raw, category);
      FindLiveIff(db.rows, owner, Trim(raw.alias));
      hide UpdateOp;
    }
  }

  lemma DeleteKeepsRule(rules: Rules, db: Db, owner: Owner, rawAlias: string, reason: string, i: nat)
    requires StoreOk(db) && RuleAt(db.rows, i)
    ensures RuleAt(DeleteOp(rules, db, owner, rawAlias, reason).0.rows, i)
  {
    hide ValidAlias, StoreOk;
    if DeleteOp(rules, db, owner, rawAlias, reason).1.Ok? {
      DeleteEffect(rules, db, owner, rawAlias, reason);
      FindLiveIff(db.rows, owner, Trim(rawAlias));
      hide DeleteOp;
    }
  }

  lemma ExecKeepsRule(rules: Rules, db: Db, op: Op, i: nat)
    requires StoreOk(db) && RuleAt(db.rows, i)
    ensures RuleAt(Exec(rules, db, op).rows, i)
  {
    hide RegisterOp, UpdateOp, DeleteOp, StoreOk, RuleAt;
    match op
    case OpRegister(owner, input) => RegisterKeepsRule(rules, db, owner, input, i);
    case OpUpdate(owner, input, category) => UpdateKeepsRule(rules, db, owner, input, category, i);
    case OpDelete(owner, alias, reason) => DeleteKeepsRule(rules, db, owner, alias, reason, i);
  }

  lemma ExecKeepsInv(rules: Rules, db: Db, op: Op)
    requires Inv(db)
    ensures Inv(Exec(rules, db, op))
  {
    hide Exec, StoreOk, HeaderRule;
    ExecKeepsStore(rules, db, op);
    var rows := Exec(rules, db, op).rows;
    forall i: nat | i < |rows| ensures HeaderRule(rows[i]) {
      ExecKeepsRule(rules, db, op, i);
    }
  }

  lemma {:induction false} RunKeepsInv(rules: Rules, ops: seq<Op>)
    ensures Inv(Run(rules, ops))
  {
    if ops == [] {
      assert forall owner, alias :: FindLive([], owner, alias) == None;
    } else {
      RunKeepsInv(rules, ops[..|ops| - 1]);
      ExecKeepsInv(rules, Run(rules, ops[..|ops| - 1]), ops[|ops| - 1]);
    }
  }

  // ---------- what every run guarantees ----------

  lemma {:induction false} OpenTailIff(events: seq<Event>)
    requires Shape(events).Some?
    ensures Shape(events).value <==> events != [] && events[|events| - 1].action != Delete
  {
  }

  /** For each owner and alias: versions are exactly 1..n in order, actions form
      (register update* delete)* with an optional open tail, and the credential is live exactly
      when its last action is not a delete. */
  lemma HistoryOfEveryRun(rules: Rules, ops: seq<Op>, owner: Owner, alias: string)
    ensures var db := Run(rules, ops);
            var events := EventsOf(db.history, owner, alias);
            && VersionsCount(events)
            && Shape(events).Some?
            && (FindLive(db.rows, owner, alias).Some? <==> events != [] && events[|events| - 1].action != Delete)
  {
    RunKeepsInv(rules, ops);
    assert HistoryOk(Run(rules, ops), owner, alias);
    OpenTailIff(EventsOf(Run(rules, ops).history, owner, alias));
  }

  /** In every reachable store an HTTP credential's allowed headers never overlap its sealed header
      names, ignoring ASCII case. */
  lemma SecretHeadersNeverAllowed(rules: Rules, ops: seq<Op>, id: nat)
    ensures id < |Run(rules, ops).rows| ==>
              var row := Run(rules, ops).rows[id];
              !row.deleted && row.category == Http ==>
                && row.secret.Some?
                && Open(row.alias, row.secret.value).Ok?
                && var secret := Open(row.alias, row.secret.value).value;
                && secret.HttpSecret?
                && forall i, j | 0 <= i < |row.policy.allowedRequestHeaders| && 0 <= j < |secret.headers| ::
                     !EqFold(row.policy.allowedRequestHeaders[i], secret.headers[j].name)
  {
    RunKeepsInv(rules, ops);
    if id < |Run(rules, ops).rows| {
      var row := Run(rules, ops).rows[id];
      assert row in Run(rules, ops).rows;
      if !row.deleted && row.category == Http {
        var headers := row.secret.value.secret.headers;
        assert forall j | 0 <= j < |headers| :: HeaderNames(headers)[j] == headers[j].name;
      }
    }
  }

  /** What an operation may never touch on an existing row; a deleted row never comes back. */
  ghost predicate SameIdentity(a: Row, b: Row) {
    && b.owner == a.owner && b.category == a.category && b.provider == a.provider && b.alias == a.alias
    && b.target == a.target && b.tlsCa == a.tlsCa
    && b.allowPrivateNetwork == a.allowPrivateNetwork && b.allowInsecureTransport == a.allowInsecureTransport
    && (a.deleted ==> b == a)
    && (!b.deleted ==> b.secret == a.secret)
  }

  ghost predicate Extends(before: seq<Row>, after: seq<Row>) {
    |before| <= |after| && forall i | 0 <= i < |before| :: SameIdentity(before[i], after[i])
  }

  lemma RegisterExtends(rules: Rules, db: Db, owner: Owner, raw: RegisterInput)
    ensures Extends(db.rows, RegisterOp(rules, db, owner, raw).0.rows)
  {
    hide NormalizeRegister, RegisterAccepted;
  }

  lemma UpdateExtends(rules: Rules, db: Db, owner: Owner, raw: UpdateInput, category: Category)
    requires StoreOk(db)
    ensures Extends(db.rows, UpdateOp(rules, db, owner, raw, category).0.rows)
  {
    hide NormalizeUpdate, PlanUpdate, ValidAlias, StoreOk;
    if UpdateOp(rules, db, owner, raw, category).1.Ok? {
      UpdateEffect(rules, db, owner, raw, category);
      FindLiveIff(db.rows, owner, Trim(raw.alias));
    }
  }

  lemma DeleteExtends(rules: Rules, db: Db, owner: Owner, rawAlias: string, reason: string)
    requires StoreOk(db)
    ensures Extends(db.rows, DeleteOp(rules, db, owner, rawAlias, reason).0.rows)
  {
    hide ValidAlias, StoreOk;
    if DeleteOp(rules, db, owner, rawAlias, reason).1.Ok? {
      DeleteEffect(rules, db, owner, rawAlias, reason);
      FindLiveIff(db.rows, owner, Trim(rawAlias));
    }
  }

  /** Target, secret and TLS material of an id never change while it lives, and a deleted id never
      comes back: no operation, accepted or refused, does either. */
  lemma ExecExtends(rules: Rules, db: Db, op: Op)
    requires StoreOk(db)
    ensures Extends(db.rows, Exec(rules, db, op).rows)
  {
    hide RegisterOp, UpdateOp, DeleteOp, StoreOk, Extends;
    match op
    case OpRegister(owner, input) => RegisterExtends(rules, db, owner, input);
    case OpUpdate(owner, input, category) => UpdateExtends(rules, db, owner, input, category);
    case OpDelete(owner, alias, reason) => DeleteExtends(rules, db, owner, alias, reason);
  }
}
