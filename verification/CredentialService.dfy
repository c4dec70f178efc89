/**
 Registering, updating and deleting credentials (backend/crates/service/src/credential/service.rs,
 update.rs): what each operation does to the store, and the update plan it is driven by.
 */
module CredentialService {
  import opened Wrappers
  import opened Text
  import opened CredentialModel
  import opened CredentialRepo

  // ---------- the update plan ----------

  datatype Plan = Plan(patch: Patch, changedFields: seq<Field>)

  /** `validate_http_policy_secret_overlap` */
  function CheckOverlap(alias: string, sealed: Option<Ciphertext>, policy: Policy): Result<(), Error> {
    if sealed == None then Err(Internal)
    else
      match Open(alias, sealed.value)
      case Err(e) => Err(e)
      case Ok(secret) =>
        if !secret.HttpSecret? then Err(Internal)
        else if NoOverlap(policy, HeaderNames(secret.headers)) then Ok(())
        else Err(Validation)
  }

  /** The input as the plan sees it. */
  function NormalizeUpdate(input: UpdateInput, category: Category, upper: char -> string): UpdateInput {
    input.(
      alias := Trim(input.alias),
      description := TrimOptional(input.description),
      env := TrimOptional(input.env),
      tags := if input.tags == None then None else Some(NormalizeTags(input.tags.value)),
      policy := if input.policy == None then None else Some(NormalizePolicy(input.policy.value, category, upper)))
  }

  /** The record the update asks for: the given values, and the old ones elsewhere. */
  function Planned(before: Row, input: UpdateInput): Row {
    before.(description := input.description.UnwrapOr(before.description),
            env := input.env.UnwrapOr(before.env),
            tags := input.tags.UnwrapOr(before.tags),
            policy := input.policy.UnwrapOr(before.policy))
  }

  function FieldIf(changed: bool, field: Field): seq<Field> {
    if changed then [field] else []
  }

  function ChangedFields(before: Row, after: Row): seq<Field> {
    FieldIf(before.description != after.description, Description)
    + FieldIf(before.env != after.env, Env)
    + FieldIf(before.tags != after.tags, Tags)
    + FieldIf(before.policy != after.policy, PolicyField)
  }

  method ComputeChangedFields(before: Row, after: Row) returns (fields: seq<Field>)
    ensures fields == ChangedFields(before, after)
  {
    fields := [];
    if before.description != after.description {
      fields := fields + [Description];
    }
    if before.env != after.env {
      fields := fields + [Env];
    }
    if before.tags != after.tags {
      fields := fields + [Tags];
    }
    if before.policy != after.policy {
      fields := fields + [PolicyField];
    }
  }

  function SomeIf<T>(present: bool, value: T): Option<T> {
    if present then Some(value) else None
  }

  function PlanUpdate(rules: Rules, before: Row, raw: UpdateInput, category: Category): Result<Plan, Error> {
    var input := NormalizeUpdate(raw, category, rules.upper);
    if !rules.updateOk(category, input) then Err(Validation)
    else
      var overlap := if category == Http && input.policy.Some?
                     then CheckOverlap(before.alias, before.secret, input.policy.value) else Ok(());
      match overlap
      case Err(e) => Err(e)
      case Ok(_) =>
        var next := Planned(before, input);
        var changed := ChangedFields(before, next);
        if changed == [] then Err(Validation)
        else
          Ok(Plan(Patch(SomeIf(Description in changed, next.description),
                        SomeIf(Env in changed, next.env),
                        SomeIf(Tags in changed, next.tags),
                        SomeIf(PolicyField in changed, next.policy)),
                  changed))
  }

  lemma ChangedFieldsAre(before: Row, after: Row)
    ensures var changed := ChangedFields(before, after);
            && (Description in changed <==> before.description != after.description)
            && (Env in changed <==> before.env != after.env)
            && (Tags in changed <==> before.tags != after.tags)
            && (PolicyField in changed <==> before.policy != after.policy)
            && (forall i, j | 0 <= i < j < |changed| :: changed[i] != changed[j])
  {
    FieldIfIs(before.description != after.description, Description);
    FieldIfIs(before.env != after.env, Env);
    FieldIfIs(before.tags != after.tags, Tags);
    FieldIfIs(before.policy != after.policy, PolicyField);
    hide FieldIf;
    var a, b := FieldIf(before.description != after.description, Description), FieldIf(before.env != after.env, Env);
    var c, d := FieldIf(before.tags != after.tags, Tags), FieldIf(before.policy != after.policy, PolicyField);
    JoinDistinct(a, b);
    JoinDistinct(a + b, c);
    JoinDistinct(a + b + c, d);
  }

  lemma FieldIfIs(changed: bool, field: Field)
    ensures forall f :: f in FieldIf(changed, field) <==> changed && f == field
    ensures NoRepeats(FieldIf(changed, field))
  {
  }

  ghost predicate NoRepeats(fields: seq<Field>) {
    forall i, j | 0 <= i < j < |fields| :: fields[i] != fields[j]
  }

  lemma JoinDistinct(a: seq<Field>, b: seq<Field>)
    requires NoRepeats(a) && NoRepeats(b) && forall f <- a :: f !in b
    ensures NoRepeats(a + b) && forall f :: f in a + b <==> f in a || f in b
  {
    assert forall i | 0 <= i < |a| :: a[i] in a && (a + b)[i] == a[i];
    assert forall j | 0 <= j < |b| :: b[j] in b && (a + b)[|a| + j] == b[j];
    forall i, j | 0 <= i < |a| <= j < |a + b| ensures (a + b)[i] != (a + b)[j] {
      assert (a + b)[j] == b[j - |a|];
    }
  }

  /** The fields listed are exactly those that differ, and the patch, applied through COALESCE,
      yields exactly the planned record. */
  lemma PlanIsExact(rules: Rules, before: Row, raw: UpdateInput, category: Category)
    requires PlanUpdate(rules, before, raw, category).Ok?
    ensures var plan := PlanUpdate(rules, before, raw, category).value;
            var next := Planned(before, NormalizeUpdate(raw, category, rules.upper));
            && Patched(before, plan.patch) == next != before
            && (Description in plan.changedFields <==> before.description != next.description)
            && (Env in plan.changedFields <==> before.env != next.env)
            && (Tags in plan.changedFields <==> before.tags != next.tags)
            && (PolicyField in plan.changedFields <==> before.policy != next.policy)
            && (forall i, j | 0 <= i < j < |plan.changedFields| :: plan.changedFields[i] != plan.changedFields[j])
  {
    hide NormalizeUpdate, CheckOverlap, ChangedFields;
    var next := Planned(before, NormalizeUpdate(raw, category, rules.upper));
    ChangedFieldsAre(before, next);
    NothingChanged(before);
  }

  lemma NothingChanged(row: Row)
    ensures ChangedFields(row, row) == []
  {
  }

  // ---------- operations on the store ----------

  function NewRow(owner: Owner, input: RegisterInput): Row {
    Row(owner, input.category, input.provider, input.alias, input.target, Some(Seal(input.alias, input.secret)),
        input.description, input.env, input.tags, input.policy,
        input.allowPrivateNetwork, input.allowInsecureTransport, input.tlsServerCa, false)
  }

  function RegisterOp(rules: Rules, db: Db, owner: Owner, raw: RegisterInput): (Db, Result<Id, Error>) {
    var input := NormalizeRegister(raw, rules.upper);
    if !RegisterAccepted(rules, input) then (db, Err(Validation))
    else Insert(db, NewRow(owner, input))
  }

  function UpdateOp(rules: Rules, db: Db, owner: Owner, raw: UpdateInput, category: Category): (Db, Result<Row,
                    Error>) {
    var alias := Trim(raw.alias);
    if !ValidAlias(alias) then (db, Err(Validation))
    else
      match FindLive(db.rows, owner, alias)
      case None => (db, Err(NotFound))
      case Some(id) =>
        FirstMatches(db.rows, row => IsLive(row, owner, alias));
        var before := db.rows[id];
        if before.category != category then (db, Err(Validation))
        else
          match PlanUpdate(rules, before, raw, category)
          case Err(e) => (db, Err(e))
          case Ok(plan) => UpdateFields(db, owner, alias, category, plan.patch, plan.changedFields)
  }

  function DeleteOp(rules: Rules, db: Db, owner: Owner, rawAlias: string, reason: string): (Db, Result<Row, Error>) {
    var alias := Trim(rawAlias);
    if !rules.reasonOk(reason) || !ValidAlias(alias) then (db, Err(Validation))
    else SoftDelete(db, owner, alias)
  }

  // ---------- the service object ----------

  class CredentialService {
    const rules: Rules
    const repo: CredentialRepo

    constructor (rules: Rules, repo: CredentialRepo)
      ensures this.rules == rules && this.repo == repo
    {
      this.rules := rules;
      this.repo := repo;
    }

    method RegisterCredential(owner: Owner, raw: RegisterInput) returns (r: Result<Id, Error>)
      modifies repo
      ensures (repo.View(), r) == RegisterOp(rules, old(repo.View()), owner, raw)
    {
      var input := NormalizeRegister(raw, rules.upper);
      if !RegisterAccepted(rules, input) {
        return Err(Validation);
      }
      r := repo.InsertCredential(NewRow(owner, input));
    }

    method UpdateCredential(owner: Owner, raw: UpdateInput, category: Category) returns (r: Result<Row, Error>)
      modifies repo
      ensures (repo.View(), r) == UpdateOp(rules, old(repo.View()), owner, raw, category)
    {
      var alias := Trim(raw.alias);
      if !ValidAlias(alias) {
        return Err(Validation);
      }
      var found := repo.FindCredentialByAlias(owner, alias);
      if found == None {
        return Err(NotFound);
      }
      var before := found.value;
      if before.category != category {
        return Err(Validation);
      }
      var plan := PlanUpdate(rules, before, raw, category);
      if plan.Err? {
        return Err(plan.error);
      }
      r := repo.UpdateCredentialMutableFields(owner, alias, category, plan.value.patch, plan.value.changedFields);
    }

    method DeleteCredential(owner: Owner, rawAlias: string, reason: string) returns (r: Result<Row, Error>)
      modifies repo
      ensures (repo.View(), r) == DeleteOp(rules, old(repo.View()), owner, rawAlias, reason)
    {
      var alias := Trim(rawAlias);
      if !rules.reasonOk(reason) || !ValidAlias(alias) {
        return Err(Validation);
      }
      r := repo.SoftDeleteCredential(owner, alias);
    }
  }
}
