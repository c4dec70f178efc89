/**
 Updates that other operations come between: an update reads its credential, plans and checks, and
 writes later by owner, alias and category (`update` in backend/crates/service/src/credential/service.rs,
 `update_credential_mutable_fields` in backend/crates/db/src/credential_repo.rs). Registration and
 deletion are one transaction each.
 */
module CredentialRaces {
  import opened Wrappers
  import opened Text
  import opened CredentialModel
  import opened CredentialRepo
  import opened CredentialService
  import opened CredentialRuns

  /** An update between its read and its write. No step reads `id`, the credential it was planned for. */
  datatype Pending = Pending(owner: Owner, alias: string, category: Category, id: Id, plan: Plan)

  function ReadUpdate(rules: Rules, db: Db, owner: Owner, raw: UpdateInput, category: Category)
    : Result<Pending, Error>
  {
    var alias := Trim(raw.alias);
    if !ValidAlias(alias) then Err(Validation)
    else
      match FindLive(db.rows, owner, alias)
      case None => Err(NotFound)
      case Some(id) =>
        FirstMatches(db.rows, row => IsLive(row, owner, alias));
        if db.rows[id].category != category then Err(Validation)
        else
          match PlanUpdate(rules, db.rows[id], raw, category)
          case Err(e) => Err(e)
          case Ok(plan) => Ok(Pending(owner, alias, category, id, plan))
  }

  function WriteUpdate(db: Db, p: Pending): (Db, Result<Row, Error>) {
    UpdateFields(db, p.owner, p.alias, p.category, p.plan.patch, p.plan.changedFields)
  }

  /** With nothing in between, the two steps are the whole update. */
  lemma UpdateIsReadThenWrite(rules: Rules, db: Db, owner: Owner, raw: UpdateInput, category: Category)
    ensures UpdateOp(rules, db, owner, raw, category)
            == match ReadUpdate(rules, db, owner, raw, category)
               case Err(e) => (db, Err(e))
               case Ok(p) => WriteUpdate(db, p)
  {
    hide PlanUpdate, ValidAlias, UpdateFields;
  }

  // ---------- runs ----------

  datatype RaceStep =
    | RegisterStep(owner: Owner, register: RegisterInput)
    | DeleteStep(owner: Owner, alias: string, reason: string)
    | ReadStep(owner: Owner, update: UpdateInput, category: Category)
    | WriteStep(pending: Pending)

  /** `crossed` holds the ids whose policy was last set by an update planned for another id. */
  datatype RaceState = RaceState(db: Db, pending: set<Pending>, crossed: set<Id>)

  function Race(rules: Rules, s: RaceState, step: RaceStep): RaceState {
    match step
    case RegisterStep(owner, input) => s.(db := RegisterOp(rules, s.db, owner, input).0)
    case DeleteStep(owner, alias, reason) => s.(db := DeleteOp(rules, s.db, owner, alias, reason).0)
    case ReadStep(owner, input, category) =>
      var read := ReadUpdate(rules, s.db, owner, input, category);
      if read.Ok? then s.(pending := s.pending + {read.value}) else s
    case WriteStep(p) =>
      if p !in s.pending then s
      else
        s.(db := WriteUpdate(s.db, p).0, pending := s.pending - {p}, crossed := CrossedAfter(s, p))
  }

  function CrossedAfter(s: RaceState, p: Pending): set<Id> {
    var found := FindLive(s.db.rows, p.owner, p.alias);
    if WriteUpdate(s.db, p).1.Err? || found == None || p.plan.patch.policy == None then s.crossed
    else if found.value == p.id then s.crossed - {p.id}
    else s.crossed + {found.value}
  }

  function RunRace(rules: Rules, steps: seq<RaceStep>): RaceState {
    if steps == [] then RaceState(EMPTY_DB, {}, {})
    else Race(rules, RunRace(rules, steps[..|steps| - 1]), steps[|steps| - 1])
  }

  // ---------- the invariant ----------

  /** As long as the credential it was planned for lives, a pending HTTP policy is clear of its secret. */
  ghost predicate PendingOk(rows: seq<Row>, p: Pending) {
    && p.id < |rows|
    && (p.category == Http && p.plan.patch.policy.Some? && !rows[p.id].deleted ==>
          NoOverlap(p.plan.patch.policy.value, SealedNames(rows[p.id])))
  }

  ghost predicate RaceOk(s: RaceState) {
    && StoreOk(s.db)
    && (forall p <- s.pending :: PendingOk(s.db.rows, p))
    && (forall i: nat :: i !in s.crossed ==> RuleAt(s.db.rows, i))
  }

  /** A successful write changes the one live row it finds, by the planned patch. */
  lemma WriteEffect(db: Db, p: Pending)
    requires StoreOk(db) && WriteUpdate(db, p).1.Ok?
    ensures var found := FindLive(db.rows, p.owner, p.alias);
            && found.Some? && found.value < |db.rows|
            && var before := db.rows[found.value];
            && IsLive(before, p.owner, p.alias) && before.category == p.category
            && var next := Patched(before, p.plan.patch);
            && WriteUpdate(db, p)
               == (Db(db.rows[found.value := next],
                      db.history + [EventFor(db.history, found.value, next, Update, p.plan.changedFields)]),
                   Ok(next))
  {
    var matches := (row: Row) => IsLive(row, p.owner, p.alias) && row.category == p.category;
    FirstMatches(db.rows, matches);
    FindLiveIff(db.rows, p.owner, p.alias);
    var id := First(db.rows, matches).value;
    assert FindLive(db.rows, p.owner, p.alias) == Some(id);
    UpdateOneRow(db.rows, id, matches, row => Patched(row, p.plan.patch));
  }

  lemma PendingStays(rows: seq<Row>, rows': seq<Row>, p: Pending)
    requires PendingOk(rows, p) && Extends(rows, rows')
    ensures PendingOk(rows', p)
  {
    hide NoOverlap;
    assert SameIdentity(rows[p.id], rows'[p.id]);
  }

  lemma ReadIsChecked(rules: Rules, db: Db, owner: Owner, raw: UpdateInput, category: Category)
    requires StoreOk(db) && ReadUpdate(rules, db, owner, raw, category).Ok?
    ensures PendingOk(db.rows, ReadUpdate(rules, db, owner, raw, category).value)
  {
    FindLiveIff(db.rows, owner, Trim(raw.alias));
    var id := FindLive(db.rows, owner, Trim(raw.alias)).value;
    hide StoreOk, ValidAlias, NormalizeUpdate, FindLive;
    PlannedPolicyIsClear(rules, db.rows[id], raw, category);
  }

  lemma PlannedPolicyIsClear(rules: Rules, before: Row, raw: UpdateInput, category: Category)
    requires PlanUpdate(rules, before, raw, category).Ok?
    ensures var policy := PlanUpdate(rules, before, raw, category).value.patch.policy;
            category == Http && policy.Some? ==> NoOverlap(policy.value, SealedNames(before))
  {
    hide NormalizeUpdate;
    var input := NormalizeUpdate(raw, category, rules.upper);
    ChangedFieldsAre(before, Planned(before, input));
    hide ChangedFields, NoOverlap;
  }

  lemma WriteKeepsRaceOk(rules: Rules, s: RaceState, p: Pending)
    requires RaceOk(s) && p in s.pending
    ensures RaceOk(Race(rules, s, WriteStep(p)))
  {
    var s' := Race(rules, s, WriteStep(p));
    if WriteUpdate(s.db, p).1.Ok? {
      WriteEffect(s.db, p);
      var id := FindLive(s.db.rows, p.owner, p.alias).value;
      var before := s.db.rows[id];
      var next := Patched(before, p.plan.patch);
      assert before in s.db.rows && SealedOk(before) && SealedOk(next);
      ReplaceKeepsStore(s.db, id, next, p.plan.changedFields);
      assert PendingOk(s.db.rows, p);
      hide StoreOk, WriteUpdate, NoOverlap, FindLive, SealedOk;
      assert Extends(s.db.rows, s'.db.rows);
      forall q <- s'.pending ensures PendingOk(s'.db.rows, q) {
        PendingStays(s.db.rows, s'.db.rows, q);
      }
      assert RuleAt(s.db.rows, id) || id in s.crossed;
      forall i: nat | i !in s'.crossed ensures RuleAt(s'.db.rows, i) {
        assert i != id ==> i !in s.crossed && RuleAt(s.db.rows, i);
      }
    } else {
      hide StoreOk;
      assert s'.db == s.db;
    }
  }

  lemma StepKeepsRaceOk(rules: Rules, s: RaceState, step: RaceStep)
    requires RaceOk(s)
    ensures RaceOk(Race(rules, s, step))
  {
    hide RegisterOp, DeleteOp, ReadUpdate, WriteUpdate, StoreOk, RuleAt, PendingOk, Extends;
    var s' := Race(rules, s, step);
    match step
    case RegisterStep(owner, input) =>
      RegisterKeepsStore(rules, s.db, owner, input);
      RegisterExtends(rules, s.db, owner, input);
      forall p <- s.pending ensures PendingOk(s'.db.rows, p) {
        PendingStays(s.db.rows, s'.db.rows, p);
      }
      forall i: nat | i !in s.crossed ensures RuleAt(s'.db.rows, i) {
        RegisterKeepsRule(rules, s.db, owner, input, i);
      }
    case DeleteStep(owner, alias, reason) =>
      DeleteKeepsStore(rules, s.db, owner, alias, reason);
      DeleteExtends(rules, s.db, owner, alias, reason);
      forall p <- s.pending ensures PendingOk(s'.db.rows, p) {
        PendingStays(s.db.rows, s'.db.rows, p);
      }
      forall i: nat | i !in s.crossed ensures RuleAt(s'.db.rows, i) {
        DeleteKeepsRule(rules, s.db, owner, alias, reason, i);
      }
    case ReadStep(owner, input, category) =>
      if ReadUpdate(rules, s.db, owner, input, category).Ok? {
        ReadIsChecked(rules, s.db, owner, input, category);
      }
    case WriteStep(p) =>
      if p in s.pending {
        WriteKeepsRaceOk(rules, s, p);
      }
  }

  lemma {:induction false} RunKeepsRaceOk(rules: Rules, steps: seq<RaceStep>)
    ensures RaceOk(RunRace(rules, steps))
  {
    if steps == [] {
      RunKeepsInv(rules, []);
    } else {
      RunKeepsRaceOk(rules, steps[..|steps| - 1]);
      StepKeepsRaceOk(rules, RunRace(rules, steps[..|steps| - 1]), steps[|steps| - 1]);
    }
  }

  // ---------- what every race guarantees ----------

  /** However updates overlap with other operations: histories stay in shape, and the header rule holds
      on every credential but those whose policy was last set by an update planned for another one. */
  lemma RuleInEveryRace(rules: Rules, steps: seq<RaceStep>, id: Id)
    ensures var s := RunRace(rules, steps);
            && StoreOk(s.db)
            && (id < |s.db.rows| && id !in s.crossed ==> HeaderRule(s.db.rows[id]))
  {
    RunKeepsRaceOk(rules, steps);
    hide StoreOk;
    assert id !in RunRace(rules, steps).crossed ==> RuleAt(RunRace(rules, steps).db.rows, id);
  }

  /** After a write that sets a policy the rule holds exactly when the policy allows none of the names
      sealed in the row it lands on; that is always so when the row is the one it was planned for. */
  lemma RuleAfterWriteIff(rules: Rules, steps: seq<RaceStep>, p: Pending)
    ensures var s := RunRace(rules, steps);
            p in s.pending && p.plan.patch.policy.Some? && WriteUpdate(s.db, p).1.Ok? ==>
              && FindLive(s.db.rows, p.owner, p.alias).Some?
              && var id := FindLive(s.db.rows, p.owner, p.alias).value;
              && id < |s.db.rows| == |WriteUpdate(s.db, p).0.rows|
              && (HeaderRule(WriteUpdate(s.db, p).0.rows[id])
                  <==> (p.category == Http ==> NoOverlap(p.plan.patch.policy.value, SealedNames(s.db.rows[id]))))
              && (id == p.id ==> HeaderRule(WriteUpdate(s.db, p).0.rows[id]))
  {
    RunKeepsRaceOk(rules, steps);
    var s := RunRace(rules, steps);
    if p in s.pending && p.plan.patch.policy.Some? && WriteUpdate(s.db, p).1.Ok? {
      WriteEffect(s.db, p);
      assert PendingOk(s.db.rows, p);
      hide StoreOk, WriteUpdate, FindLive, RunRace, NoOverlap;
    }
  }

  // ---------- a race that breaks the rule ----------

  /** The checks this model does not spell out accept everything. */
  ghost predicate Permissive(rules: Rules) {
    && (forall input :: rules.registerOk(input)) && (forall c, input :: rules.updateOk(c, input))
    && (forall reason :: rules.reasonOk(reason))
  }

  const OPEN_POLICY := Policy([], [], [], [], false, false, false, [], 0, 0, 0)

  function Registration(alias: string, headers: seq<SecretHeader>): RegisterInput {
    RegisterInput(Http, "", alias, HttpTarget("", ""), HttpSecret(headers), "", "", [], OPEN_POLICY, false, false, None)
  }

  function Allowing(alias: string, x: string): UpdateInput {
    UpdateInput(alias, "", None, None, None, Some(OPEN_POLICY.(allowedRequestHeaders := [x])))
  }

  lemma OpenPolicyStays(upper: char -> string)
    ensures NormalizePolicy(OPEN_POLICY, Http, upper).allowedRequestHeaders == []
  {
  }

  lemma KindsStay(secret: Secret, target: Target, upper: char -> string)
    ensures NormalizeSecret(secret, upper).HttpSecret? == secret.HttpSecret?
    ensures NormalizeTarget(target).HttpTarget? == target.HttpTarget?
  {
    hide CanonicalHeaderName, TrimSlashes, NormalizeBasePath, Trim;
  }

  lemma Registered(rules: Rules, db: Db, alias: string, headers: seq<SecretHeader>)
    requires Permissive(rules) && ValidAlias(alias) && FindLive(db.rows, 0, alias) == None
    ensures var rows := RegisterOp(rules, db, 0, Registration(alias, headers)).0.rows;
            && |rows| == |db.rows| + 1 && rows[..|db.rows|] == db.rows
            && var row := rows[|db.rows|];
            && IsLive(row, 0, alias) && row.category == Http && row.policy.allowedRequestHeaders == []
            && row.secret == Some(Seal(alias, NormalizeSecret(HttpSecret(headers), rules.upper)))
  {
    hide NormalizePolicy, NormalizeSecret, NormalizeTarget, NormalizeTags, NormalizeCa, Trim, FindLive, ValidAlias;
    ValidAliasTrims(alias);
    OpenPolicyStays(rules.upper);
    KindsStay(HttpSecret(headers), HttpTarget("", ""), rules.upper);
    var input := NormalizeRegister(Registration(alias, headers), rules.upper);
    assert rules.registerOk(input);
  }

  /** The plan to allow x, made for a credential that allows nothing and seals nothing. */
  lemma AllowingIsPlanned(rules: Rules, before: Row, x: string)
    requires Permissive(rules) && before.policy.allowedRequestHeaders == []
    requires before.secret == Some(Sealed(before.alias, HttpSecret([])))
    ensures var plan := PlanUpdate(rules, before, Allowing(before.alias, x), Http);
            && plan.Ok? && plan.value.patch.policy.Some?
            && plan.value.patch.policy.value.allowedRequestHeaders == [CanonicalHeaderName(x, rules.upper)]
  {
    hide CanonicalHeaderName, Trim;
    var input := NormalizeUpdate(Allowing(before.alias, x), Http, rules.upper);
    assert input.policy.value.allowedRequestHeaders == [CanonicalHeaderName(x, rules.upper)];
    hide NormalizeUpdate;
    ChangedFieldsAre(before, Planned(before, input));
    hide ChangedFields;
    assert rules.updateOk(Http, input);
  }

  lemma RaceSnoc(rules: Rules, steps: seq<RaceStep>, step: RaceStep)
    ensures RunRace(rules, steps + [step]) == Race(rules, RunRace(rules, steps), step)
  {
    hide Race;
    assert (steps + [step])[..|steps|] == steps;
  }

  lemma RaceRegister(rules: Rules, s: RaceState, input: RegisterInput)
    ensures Race(rules, s, RegisterStep(0, input)) == s.(db := RegisterOp(rules, s.db, 0, input).0)
  {
  }

  lemma RaceRead(rules: Rules, s: RaceState, input: UpdateInput)
    requires ReadUpdate(rules, s.db, 0, input, Http).Ok?
    ensures Race(rules, s, ReadStep(0, input, Http))
            == s.(pending := s.pending + {ReadUpdate(rules, s.db, 0, input, Http).value})
  {
  }

  lemma ReadFinds(rules: Rules, db: Db, alias: string, x: string)
    requires Permissive(rules) && ValidAlias(alias)
    requires |db.rows| == 1 && IsLive(db.rows[0], 0, alias) && db.rows[0].category == Http
    requires db.rows[0].policy.allowedRequestHeaders == []
    requires db.rows[0].secret == Some(Sealed(alias, HttpSecret([])))
    ensures ReadUpdate(rules, db, 0, Allowing(alias, x), Http).Ok?
    ensures Allows(ReadUpdate(rules, db, 0, Allowing(alias, x), Http).value, alias, CanonicalHeaderName(x, rules.upper))
  {
    hide PlanUpdate, Trim, CanonicalHeaderName, FindLive, ValidAlias, Permissive;
    ValidAliasTrims(alias);
    FindLiveIff(db.rows, 0, alias);
    AllowingIsPlanned(rules, db.rows[0], x);
  }

  ghost predicate Allows(p: Pending, alias: string, name: string) {
    && p.owner == 0 && p.alias == alias && p.category == Http
    && p.plan.patch.policy.Some? && p.plan.patch.policy.value.allowedRequestHeaders == [name]
  }

  lemma AfterRegister(rules: Rules, alias: string) returns (steps: seq<RaceStep>)
    requires Permissive(rules) && ValidAlias(alias)
    ensures var rows := RunRace(rules, steps).db.rows;
            && |rows| == 1 && IsLive(rows[0], 0, alias) && rows[0].category == Http
            && rows[0].policy.allowedRequestHeaders == [] && rows[0].secret == Some(Sealed(alias, HttpSecret([])))
  {
    hide RegisterOp, Race, NormalizeSecret, Registration, ValidAlias, Permissive;
    var input := Registration(alias, []);
    assert RunRace(rules, []).db == EMPTY_DB;
    assert FindLive([], 0, alias) == None;
    hide RunRace, FindLive;
    steps := [] + [RegisterStep(0, input)];
    RaceSnoc(rules, [], RegisterStep(0, input));
    RaceRegister(rules, RunRace(rules, []), input);
    Registered(rules, EMPTY_DB, alias, []);
    NothingSealed(rules.upper);
  }

  lemma NothingSealed(upper: char -> string)
    ensures NormalizeSecret(HttpSecret([]), upper) == HttpSecret([])
  {
  }

  lemma AfterRead(rules: Rules, alias: string, x: string) returns (steps: seq<RaceStep>, p: Pending)
    requires Permissive(rules) && ValidAlias(alias)
    ensures var s := RunRace(rules, steps);
            && p in s.pending && |s.db.rows| == 1 && IsLive(s.db.rows[0], 0, alias)
            && Allows(p, alias, CanonicalHeaderName(x, rules.upper))
  {
    hide RunRace, Race, ReadUpdate, Allowing, Allows, CanonicalHeaderName, ValidAlias, Permissive;
    var before := AfterRegister(rules, alias);
    var s, input := RunRace(rules, before), Allowing(alias, x);
    ReadFinds(rules, s.db, alias, x);
    RaceSnoc(rules, before, ReadStep(0, input, Http));
    RaceRead(rules, s, input);
    steps := before + [ReadStep(0, input, Http)];
    p := ReadUpdate(rules, s.db, 0, input, Http).value;
  }

  lemma AfterDelete(rules: Rules, alias: string, x: string) returns (steps: seq<RaceStep>, p: Pending)
    requires Permissive(rules) && ValidAlias(alias)
    ensures var s := RunRace(rules, steps);
            && p in s.pending && |s.db.rows| == 1 && s.db.rows[0].deleted
            && Allows(p, alias, CanonicalHeaderName(x, rules.upper))
  {
    var before;
    before, p := AfterRead(rules, alias, x);
    var s := RunRace(rules, before);
    RaceSnoc(rules, before, DeleteStep(0, alias, ""));
    steps := before + [DeleteStep(0, alias, "")];
    RunKeepsRaceOk(rules, before);
    ValidAliasTrims(alias);
    FindLiveIff(s.db.rows, 0, alias);
    hide RunRace, StoreOk, Trim, CanonicalHeaderName, ValidAlias, Allows;
    FirstMatches(s.db.rows, row => IsLive(row, 0, alias));
    assert rules.reasonOk("");
    assert DeleteOp(rules, s.db, 0, alias, "").1.Ok?;
    DeleteEffect(rules, s.db, 0, alias, "");
    hide DeleteOp, FindLive;
  }

  lemma AfterSecondRegister(rules: Rules, alias: string, x: string) returns (steps: seq<RaceStep>, p: Pending)
    requires Permissive(rules) && ValidAlias(alias)
    ensures var s := RunRace(rules, steps);
            && p in s.pending && |s.db.rows| == 2
            && IsLive(s.db.rows[1], 0, alias) && s.db.rows[1].category == Http
            && SealedNames(s.db.rows[1]) == [CanonicalHeaderName(x, rules.upper)]
            && Allows(p, alias, CanonicalHeaderName(x, rules.upper))
  {
    hide RunRace, Race, RegisterOp, NormalizeSecret, CanonicalHeaderName, FindLive, Allows, Registration, ValidAlias,
      Permissive;
    var before;
    before, p := AfterDelete(rules, alias, x);
    var s, input := RunRace(rules, before), Registration(alias, [SecretHeader(x, "")]);
    FindLiveIff(s.db.rows, 0, alias);
    Registered(rules, s.db, alias, [SecretHeader(x, "")]);
    RaceSnoc(rules, before, RegisterStep(0, input));
    RaceRegister(rules, s, input);
    steps := before + [RegisterStep(0, input)];
    OneNameSealed(x, rules.upper);
  }

  lemma OneNameSealed(x: string, upper: char -> string)
    ensures var secret := NormalizeSecret(HttpSecret([SecretHeader(x, "")]), upper);
            secret.HttpSecret? && HeaderNames(secret.headers) == [CanonicalHeaderName(x, upper)]
  {
    hide CanonicalHeaderName;
  }

  /** An update that allows x is planned; the credential is deleted and registered again with x as a
      secret header; the update is written, and the new credential allows its own secret header. */
  lemma RaceBreaksRule(rules: Rules, alias: string, x: string)
    requires Permissive(rules) && ValidAlias(alias)
    ensures exists steps, id: nat ::
              id < |RunRace(rules, steps).db.rows| && !HeaderRule(RunRace(rules, steps).db.rows[id])
  {
    hide RunRace, Race, StoreOk, CanonicalHeaderName, NoOverlap, Permissive, ValidAlias, SealedNames;
    var before, p := AfterSecondRegister(rules, alias, x);
    var s := RunRace(rules, before);
    RaceSnoc(rules, before, WriteStep(p));
    RunKeepsRaceOk(rules, before);
    BrokenByWrite(rules, s, p, alias, CanonicalHeaderName(x, rules.upper));
    var after := RunRace(rules, before + [WriteStep(p)]);
    assert 1 < |after.db.rows| && !HeaderRule(after.db.rows[1]);
  }

  lemma BrokenByWrite(rules: Rules, s: RaceState, p: Pending, alias: string, name: string)
    requires StoreOk(s.db) && p in s.pending && Allows(p, alias, name)
    requires |s.db.rows| == 2 && IsLive(s.db.rows[1], 0, alias) && s.db.rows[1].category == Http
    requires SealedNames(s.db.rows[1]) == [name]
    ensures var rows := Race(rules, s, WriteStep(p)).db.rows;
            |rows| == 2 && !HeaderRule(rows[1])
  {
    assert OneLive(s.db.rows);
    hide WriteUpdate, NoOverlap, FindLive, CrossedAfter, StoreOk;
    WriteFinds(s.db, p, 1);
    WriteEffect(s.db, p);
    FoundIs(s.db.rows, alias, 1);
    var row := Patched(s.db.rows[1], p.plan.patch);
    assert SealedNames(row) == [name];
    SameNameOverlaps(row.policy, SealedNames(row));
  }

  lemma FoundIs(rows: seq<Row>, alias: string, id: nat)
    requires OneLive(rows) && id < |rows| && IsLive(rows[id], 0, alias)
    ensures FindLive(rows, 0, alias) == Some(id)
  {
    FindLiveIff(rows, 0, alias);
  }

  lemma WriteFinds(db: Db, p: Pending, id: nat)
    requires id < |db.rows| && IsLive(db.rows[id], p.owner, p.alias) && db.rows[id].category == p.category
    ensures WriteUpdate(db, p).1.Ok?
  {
    var matches := (row: Row) => IsLive(row, p.owner, p.alias) && row.category == p.category;
    FirstMatches(db.rows, matches);
    assert matches(db.rows[id]);
  }

  lemma SameNameOverlaps(policy: Policy, names: seq<string>)
    requires names != [] && policy.allowedRequestHeaders == names
    ensures !NoOverlap(policy, names)
  {
    assert EqFold(policy.allowedRequestHeaders[0], names[0]);
  }
}
