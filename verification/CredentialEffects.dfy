/**
 What each credential operation does, in terms of the raw request: every field of a registered row
 and of an updated one, the event recorded, and exactly when each operation is refused.
 */
module CredentialEffects {
  import opened Wrappers
  import opened Text
  import opened CredentialModel
  import opened CredentialRepo
  import opened CredentialService
  import opened CredentialRuns

  // ---------- canonical header names ----------

  ghost function Joined(parts: seq<string>): string {
    if parts == [] then ""
    else if |parts| == 1 then parts[0]
    else parts[0] + "-" + Joined(parts[1..])
  }

  ghost function Capitalized(part: string, upper: char -> string): string {
    if part == "" then "" else upper(part[0]) + Lower(part[1..])
  }

  ghost predicate IsPartition(name: string, parts: seq<string>) {
    parts != [] && Joined(parts) == name && forall i | 0 <= i < |parts| :: '-' !in parts[i]
  }

  ghost predicate IsCapitalization(parts: seq<string>, caps: seq<string>, upper: char -> string) {
    |caps| == |parts| && forall i | 0 <= i < |parts| :: caps[i] == Capitalized(parts[i], upper)
  }

  /** The trimmed name, cut at its dashes, with each part's first letter raised and the rest lowered. */
  ghost predicate IsCanonical(name: string, canonical: string, upper: char -> string) {
    exists parts, caps ::
      IsPartition(Trim(name), parts) && IsCapitalization(parts, caps, upper) && canonical == Joined(caps)
  }

  lemma {:induction false} CanonicalWithoutDash(part: string, upper: char -> string)
    requires '-' !in part
    ensures CanonicalFrom(part, false, upper) == Lower(part)
    ensures CanonicalFrom(part, true, upper) == Capitalized(part, upper)
  {
    if part != "" {
      CanonicalWithoutDash(part[1..], upper);
      assert Lower(part) == [LowerChar(part[0])] + Lower(part[1..]);
    }
  }

  lemma {:induction false} CanonicalJoin(a: string, b: string, atStart: bool, upper: char -> string)
    requires '-' !in a
    ensures CanonicalFrom(a + "-" + b, atStart, upper)
            == CanonicalFrom(a, atStart, upper) + "-" + CanonicalFrom(b, true, upper)
  {
    hide LowerChar;
    var s, tail := a + "-" + b, CanonicalFrom(b, true, upper);
    if a == "" {
      assert s == "-" + b && s[1..] == b;
    } else {
      assert s[0] == a[0] && s[1..] == a[1..] + "-" + b;
      CanonicalJoin(a[1..], b, false, upper);
      var head := if atStart then upper(a[0]) else [LowerChar(a[0])];
      var rest := CanonicalFrom(a[1..], false, upper);
      assert CanonicalFrom(s, atStart, upper) == head + (rest + "-" + tail);
      hide CanonicalFrom;
      assert head + (rest + "-" + tail) == head + rest + "-" + tail;
    }
  }

  lemma {:induction false} CanonicalFromIs(name: string, upper: char -> string)
    returns (parts: seq<string>, caps: seq<string>)
    ensures IsPartition(name, parts) && IsCapitalization(parts, caps, upper)
    ensures CanonicalFrom(name, true, upper) == Joined(caps)
    decreases |name|
  {
    SplitOnceSound(name, '-');
    match SplitOnce(name, '-')
    case None =>
      CanonicalWithoutDash(name, upper);
      parts, caps := [name], [Capitalized(name, upper)];
    case Some((a, b)) =>
      CanonicalWithoutDash(a, upper);
      CanonicalJoin(a, b, true, upper);
      var ps, cs := CanonicalFromIs(b, upper);
      parts, caps := [a] + ps, [Capitalized(a, upper)] + cs;
      assert parts[1..] == ps && caps[1..] == cs;
      assert name == a + "-" + b;
  }

  lemma CanonicalIs(name: string, upper: char -> string)
    ensures IsCanonical(name, CanonicalHeaderName(name, upper), upper)
  {
    var parts, caps := CanonicalFromIs(Trim(name), upper);
  }

  // ---------- tags ----------

  ghost predicate Ascending(tags: seq<string>) {
    forall i, j | 0 <= i < j < |tags| :: Less(tags[i], tags[j])
  }

  ghost predicate FromTag(raw: seq<string>, tag: string) {
    tag != "" && exists i | 0 <= i < |raw| :: Lower(Trim(raw[i])) == tag
  }

  /** Every given tag that is not blank, trimmed and lower-cased, once and in order. */
  ghost predicate TagsOf(raw: seq<string>, tags: seq<string>) {
    Ascending(tags) && forall tag :: tag in tags <==> FromTag(raw, tag)
  }

  lemma AscendingCons(tag: string, tags: seq<string>)
    requires Ascending(tags) && forall t <- tags :: Less(tag, t)
    ensures Ascending([tag] + tags)
  {
    hide Less;
    var r := [tag] + tags;
    forall i, j | 0 <= i < j < |r| ensures Less(r[i], r[j]) {
      assert r[j] == tags[j - 1] && tags[j - 1] in tags;
    }
  }

  lemma {:induction false} AddTagIs(tags: seq<string>, tag: string)
    requires Ascending(tags)
    ensures Ascending(AddTag(tags, tag))
    ensures forall t :: t in AddTag(tags, tag) <==> t in tags || (t == tag && tag != "")
  {
    assert tags == [] ==> Ascending(AddTag(tags, tag));
    hide Less, Ascending;
    if tag == "" || tags == [] {
    } else if Less(tag, tags[0]) {
      BeforeAll(tag, tags);
      AscendingCons(tag, tags);
    } else if tags[0] != tag {
      AscendingTail(tags);
      AddTagIs(tags[1..], tag);
      LessTotal(tag, tags[0]);
      AscendingCons(tags[0], AddTag(tags[1..], tag));
      assert tags == [tags[0]] + tags[1..];
    }
  }

  lemma AscendingTail(tags: seq<string>)
    requires Ascending(tags) && tags != []
    ensures Ascending(tags[1..]) && forall t <- tags[1..] :: Less(tags[0], t)
  {
    hide Less;
  }

  lemma BeforeAll(tag: string, tags: seq<string>)
    requires Ascending(tags) && tags != [] && Less(tag, tags[0])
    ensures forall t <- tags :: Less(tag, t)
  {
    hide Less;
    forall t <- tags ensures Less(tag, t) {
      if t != tags[0] {
        LessTransitive(tag, tags[0], t);
      }
    }
  }

  lemma {:induction false} NormalizeTagsIs(raw: seq<string>)
    ensures TagsOf(raw, NormalizeTags(raw))
  {
    if raw != [] {
      var init := raw[..|raw| - 1];
      NormalizeTagsIs(init);
      AddTagIs(NormalizeTags(init), Lower(Trim(raw[|raw| - 1])));
      var last := Lower(Trim(raw[|raw| - 1]));
      assert forall tag :: FromTag(raw, tag) <==> FromTag(init, tag) || (tag != "" && tag == last);
    }
  }

  // ---------- policies, targets and secrets ----------

  ghost predicate EachCanonical(raw: seq<string>, names: seq<string>, upper: char -> string) {
    |names| == |raw| && forall i | 0 <= i < |raw| :: IsCanonical(raw[i], names[i], upper)
  }

  /** An HTTP policy defaults to GET everywhere; methods are upper-cased, headers canonical, denied
      functions lower-cased, and the other limits are as given. */
  ghost predicate PolicyOf(raw: Policy, category: Category, policy: Policy, upper: char -> string) {
    if category == Http then
      && policy == raw.(allowedMethods := policy.allowedMethods,
                        allowedRequestPathPrefixes := policy.allowedRequestPathPrefixes,
                        allowedRequestHeaders := policy.allowedRequestHeaders)
      && (raw.allowedMethods == [] ==> policy.allowedMethods == ["GET"])
      && (raw.allowedMethods != [] ==>
            && |policy.allowedMethods| == |raw.allowedMethods|
            && forall i | 0 <= i < |raw.allowedMethods| ::
                 policy.allowedMethods[i] == Upper(Trim(raw.allowedMethods[i])))
      && policy.allowedRequestPathPrefixes
         == (if raw.allowedRequestPathPrefixes == [] then ["/"] else raw.allowedRequestPathPrefixes)
      && EachCanonical(raw.allowedRequestHeaders, policy.allowedRequestHeaders, upper)
    else
      && policy == raw.(deniedFunctions := policy.deniedFunctions)
      && |policy.deniedFunctions| == |raw.deniedFunctions|
      && forall i | 0 <= i < |raw.deniedFunctions| :: policy.deniedFunctions[i] == Lower(Trim(raw.deniedFunctions[i]))
  }

  ghost predicate TargetOf(raw: Target, target: Target) {
    match raw
    case HttpTarget(origin, basePath) =>
      && target.HttpTarget?
      && IsStem(Trim(origin), target.origin)
      && (if Trim(basePath) in {"", "/"} then target.basePath == "/" else IsStem(Trim(basePath), target.basePath))
    case SqlTarget(url) => target == SqlTarget(Trim(url))
  }

  ghost predicate SecretOf(raw: Secret, secret: Secret, upper: char -> string) {
    match raw
    case HttpSecret(headers) =>
      && secret.HttpSecret? && |secret.headers| == |headers|
      && forall i | 0 <= i < |headers| ::
           IsCanonical(headers[i].name, secret.headers[i].name, upper) && secret.headers[i].value == headers[i].value
    case SqlSecret(_, _) => secret == raw
  }

  lemma GetIsUpper()
    ensures Upper(Trim("GET")) == "GET"
  {
    TrimIdentity("GET");
  }

  lemma CanonicalEach(raw: seq<string>, upper: char -> string)
    ensures EachCanonical(raw, MapStrings(raw, h => CanonicalHeaderName(h, upper)), upper)
  {
    hide IsCanonical, CanonicalHeaderName;
    forall i | 0 <= i < |raw| ensures IsCanonical(raw[i], CanonicalHeaderName(raw[i], upper), upper) {
      CanonicalIs(raw[i], upper);
    }
  }

  lemma NormalizePolicyIs(raw: Policy, category: Category, upper: char -> string)
    ensures PolicyOf(raw, category, NormalizePolicy(raw, category, upper), upper)
  {
    GetIsUpper();
    hide IsCanonical, CanonicalHeaderName, EachCanonical, Upper, Lower, Trim;
    CanonicalEach(raw.allowedRequestHeaders, upper);
    var policy := NormalizePolicy(raw, category, upper);
    if category == Http {
      assert raw.allowedMethods == [] ==> policy.allowedMethods == ["GET"];
    }
  }

  lemma NormalizeTargetIs(raw: Target)
    ensures TargetOf(raw, NormalizeTarget(raw))
  {
    match raw
    case HttpTarget(origin, basePath) =>
      TrimSlashesIs(Trim(origin));
      TrimSlashesIs(Trim(basePath));
    case SqlTarget(_) =>
  }

  lemma NormalizeSecretIs(raw: Secret, upper: char -> string)
    ensures SecretOf(raw, NormalizeSecret(raw, upper), upper)
  {
    hide IsCanonical, CanonicalHeaderName;
    forall name ensures IsCanonical(name, CanonicalHeaderName(name, upper), upper) {
      CanonicalIs(name, upper);
    }
  }

  // ---------- registration ----------

  lemma NextVersion(db: Db, owner: Owner, alias: string)
    requires StoreOk(db)
    ensures NextHistoryVersion(db.history, owner, alias) == |EventsOf(db.history, owner, alias)| + 1
  {
    assert HistoryOk(db, owner, alias);
    MaxVersionIsCount(db.history, owner, alias);
  }

  /** Some live credential of the owner has the alias. */
  ghost predicate Taken(rows: seq<Row>, owner: Owner, alias: string) {
    exists i | 0 <= i < |rows| :: !rows[i].deleted && rows[i].owner == owner && rows[i].alias == alias
  }

  /** An allowed header and a secret one with the same name in some case. */
  ghost predicate Overlap(policy: Policy, headers: seq<SecretHeader>) {
    exists i, j | 0 <= i < |policy.allowedRequestHeaders| && 0 <= j < |headers| ::
      SameIgnoringCase(policy.allowedRequestHeaders[i], headers[j].name)
  }

  lemma NoOverlapIs(policy: Policy, headers: seq<SecretHeader>)
    ensures NoOverlap(policy, HeaderNames(headers)) <==> !Overlap(policy, headers)
  {
    var names := HeaderNames(headers);
    hide EqFold, SameIgnoringCase;
    forall i, j | 0 <= i < |policy.allowedRequestHeaders| && 0 <= j < |headers|
      ensures EqFold(policy.allowedRequestHeaders[i], names[j])
              <==> SameIgnoringCase(policy.allowedRequestHeaders[i], headers[j].name)
    {
      EqFoldIs(policy.allowedRequestHeaders[i], names[j]);
    }
  }

  /** The row a registration asks for, field by field. */
  ghost predicate RowOf(owner: Owner, raw: RegisterInput, row: Row, upper: char -> string) {
    && row.owner == owner && row.category == raw.category && !row.deleted
    && row.alias == Trim(raw.alias)
    && row.provider == (if raw.category == Sql && Trim(raw.provider) == "" then "postgres" else Trim(raw.provider))
    && TargetOf(raw.target, row.target)
    && row.description == Trim(raw.description)
    && row.env == (if Trim(raw.env) == "" then "dev" else Trim(raw.env))
    && TagsOf(raw.tags, row.tags)
    && PolicyOf(raw.policy, raw.category, row.policy, upper)
    && row.allowPrivateNetwork == raw.allowPrivateNetwork
    && row.allowInsecureTransport == raw.allowInsecureTransport
    && row.tlsCa == (if raw.tlsServerCa == None || Trim(raw.tlsServerCa.value) == "" then None
                     else Some(Trim(raw.tlsServerCa.value)))
    && row.secret.Some? && Open(row.alias, row.secret.value).Ok?
    && SecretOf(raw.secret, Open(row.alias, row.secret.value).value, upper)
  }

  lemma NewRowIs(owner: Owner, raw: RegisterInput, upper: char -> string)
    ensures RowOf(owner, raw, NewRow(owner, NormalizeRegister(raw, upper)), upper)
  {
    hide TagsOf, PolicyOf, TargetOf, SecretOf, NormalizePolicy, NormalizeTags, NormalizeTarget, NormalizeSecret;
    hide Trim;
    NormalizeTargetIs(raw.target);
    NormalizeTagsIs(raw.tags);
    NormalizePolicyIs(raw.policy, raw.category, upper);
    NormalizeSecretIs(raw.secret, upper);
  }

  ghost predicate RegisterValid(rules: Rules, raw: RegisterInput) {
    var input := NormalizeRegister(raw, rules.upper);
    && ValidAlias(Trim(raw.alias))
    && (raw.target.HttpTarget? <==> raw.category == Http)
    && (raw.secret.HttpSecret? <==> raw.category == Http)
    && (raw.category == Http ==> !Overlap(input.policy, input.secret.headers))
    && rules.registerOk(input)
  }

  lemma RegisterValidIs(rules: Rules, raw: RegisterInput)
    ensures RegisterValid(rules, raw) <==> RegisterAccepted(rules, NormalizeRegister(raw, rules.upper))
  {
    hide ValidAlias, Trim, NormalizePolicy, NormalizeTags, HeaderNames, CanonicalHeaderName, NoOverlap, Overlap;
    var input := NormalizeRegister(raw, rules.upper);
    if input.secret.HttpSecret? {
      NoOverlapIs(input.policy, input.secret.headers);
    }
  }

  /** A registration is refused exactly when the alias is live or the request invalid, and then
      changes nothing; otherwise it adds the requested row and one register event, the next of its
      owner and alias. */
  lemma RegisterEffect(rules: Rules, db: Db, owner: Owner, raw: RegisterInput)
    requires StoreOk(db)
    ensures var (db', r) := RegisterOp(rules, db, owner, raw);
            && (r.Ok? <==> RegisterValid(rules, raw) && !Taken(db.rows, owner, Trim(raw.alias)))
            && (r.Err? ==> db' == db && r.error == Validation)
            && (r.Ok? ==>
                  && r.value == |db.rows| && |db'.rows| == |db.rows| + 1 && db.rows <= db'.rows
                  && var row := db'.rows[|db.rows|];
                  && RowOf(owner, raw, row, rules.upper)
                  && db'.history == db.history
                     + [Event(|db.rows|, owner, row.alias, Register, |EventsOf(db.history, owner, row.alias)| + 1, [])])
  {
    hide RegisterAccepted, RegisterValid, RowOf, EventsOf, MaxVersion, Trim;
    RegisterValidIs(rules, raw);
    NewRowIs(owner, raw, rules.upper);
    FindLiveIff(db.rows, owner, Trim(raw.alias));
    NextVersion(db, owner, Trim(raw.alias));
  }

  // ---------- update ----------

  ghost predicate FieldOf(raw: Option<string>, before: string, after: string) {
    after == if raw.Some? then Trim(raw.value) else before
  }

  /** The row an update asks for: each given field normalized, everything else as before. */
  ghost predicate UpdatedOf(before: Row, raw: UpdateInput, category: Category, after: Row, upper: char -> string) {
    && FieldOf(raw.description, before.description, after.description)
    && FieldOf(raw.env, before.env, after.env)
    && (if raw.tags.Some? then TagsOf(raw.tags.value, after.tags) else after.tags == before.tags)
    && (if raw.policy.Some? then PolicyOf(raw.policy.value, category, after.policy, upper)
        else after.policy == before.policy)
    && after == before.(description := after.description, env := after.env, tags := after.tags, policy := after.policy)
  }

  lemma PlannedIs(before: Row, raw: UpdateInput, category: Category, upper: char -> string)
    ensures UpdatedOf(before, raw, category, Planned(before, NormalizeUpdate(raw, category, upper)), upper)
  {
    hide TagsOf, PolicyOf, NormalizePolicy, NormalizeTags, Trim;
    if raw.tags.Some? {
      NormalizeTagsIs(raw.tags.value);
    }
    if raw.policy.Some? {
      NormalizePolicyIs(raw.policy.value, category, upper);
    }
  }

  ghost predicate LiveAt(rows: seq<Row>, i: nat, owner: Owner, alias: string) {
    i < |rows| && !rows[i].deleted && rows[i].owner == owner && rows[i].alias == alias
  }

  /** A valid update names the category of the row, and a new HTTP policy none of its secret headers. */
  ghost predicate UpdateValid(rules: Rules, before: Row, raw: UpdateInput, category: Category) {
    var input := NormalizeUpdate(raw, category, rules.upper);
    && ValidAlias(Trim(raw.alias)) && before.category == category && rules.updateOk(category, input)
    && (category == Http && input.policy.Some? && before.secret.Some? && before.secret.value.secret.HttpSecret? ==>
          !Overlap(input.policy.value, before.secret.value.secret.headers))
  }

  ghost predicate FieldsOf(before: Row, after: Row, fields: seq<Field>) {
    && (Description in fields <==> after.description != before.description)
    && (Env in fields <==> after.env != before.env)
    && (Tags in fields <==> after.tags != before.tags)
    && (PolicyField in fields <==> after.policy != before.policy)
    && forall i, j | 0 <= i < j < |fields| :: fields[i] != fields[j]
  }

  lemma FindLiveAt(rows: seq<Row>, i: nat, owner: Owner, alias: string)
    requires OneLive(rows) && LiveAt(rows, i, owner, alias)
    ensures FindLive(rows, owner, alias) == Some(i)
  {
    FindLiveIff(rows, owner, alias);
    assert IsLive(rows[i], owner, alias);
  }

  lemma PlanIs(rules: Rules, before: Row, raw: UpdateInput, category: Category)
    requires SealedOk(before) && !before.deleted && before.category == category && ValidAlias(Trim(raw.alias))
    ensures var r := PlanUpdate(rules, before, raw, category);
            var after := Planned(before, NormalizeUpdate(raw, category, rules.upper));
            && (r.Ok? <==> UpdateValid(rules, before, raw, category) && after != before)
            && (r.Err? ==> r.error == Validation)
            && (r.Ok? ==> FieldsOf(before, after, r.value.changedFields))
  {
    hide NormalizeUpdate, ChangedFields, NoOverlap, HeaderNames, Overlap, ValidAlias;
    var input := NormalizeUpdate(raw, category, rules.upper);
    var after := Planned(before, input);
    if input.policy.Some? && before.secret.value.secret.HttpSecret? {
      NoOverlapIs(input.policy.value, before.secret.value.secret.headers);
    }
    ChangedFieldsAre(before, after);
    NothingChanged(before);
    if ChangedFields(before, after) == [] {
      assert Description !in ChangedFields(before, after);
    }
  }

  lemma UpdateFieldsFinds(db: Db, owner: Owner, alias: string, category: Category, patch: Patch, fields: seq<Field>,
                          i: nat)
    requires LiveAt(db.rows, i, owner, alias) && db.rows[i].category == category
    ensures UpdateFields(db, owner, alias, category, patch, fields).1.Ok?
  {
    var matches := (row: Row) => IsLive(row, owner, alias) && row.category == category;
    FirstMatches(db.rows, matches);
    assert matches(db.rows[i]);
  }

  lemma UpdateDecides(rules: Rules, db: Db, owner: Owner, raw: UpdateInput, category: Category, i: nat)
    requires StoreOk(db) && LiveAt(db.rows, i, owner, Trim(raw.alias))
    ensures var r := UpdateOp(rules, db, owner, raw, category).1;
            var before := db.rows[i];
            && (r.Ok? <==> UpdateValid(rules, before, raw, category)
                           && Planned(before, NormalizeUpdate(raw, category, rules.upper)) != before)
            && (r.Err? ==> r.error == Validation)
  {
    hide PlanUpdate, NormalizeUpdate, Planned, ValidAlias, UpdateFields, Overlap;
    var alias, before := Trim(raw.alias), db.rows[i];
    assert before in db.rows && SealedOk(before);
    FindLiveAt(db.rows, i, owner, alias);
    if ValidAlias(alias) && before.category == category {
      PlanIs(rules, before, raw, category);
      if PlanUpdate(rules, before, raw, category).Ok? {
        var plan := PlanUpdate(rules, before, raw, category).value;
        UpdateFieldsFinds(db, owner, alias, category, plan.patch, plan.changedFields, i);
      }
    }
  }

  /** One event more: the next of its key, listing exactly the fields that differ. */
  ghost predicate UpdateRecorded(db: Db, db': Db, i: nat, before: Row, after: Row) {
    && |db'.history| == |db.history| + 1 && db.history <= db'.history
    && var e := db'.history[|db.history|];
    && FieldsOf(before, after, e.changedFields)
    && e == Event(i, before.owner, before.alias, Update, |EventsOf(db.history, before.owner, before.alias)| + 1,
                  e.changedFields)
  }

  lemma UpdateRefused(rules: Rules, db: Db, owner: Owner, raw: UpdateInput, category: Category)
    ensures var (db', r) := UpdateOp(rules, db, owner, raw, category);
            && (r.Err? ==> db' == db)
            && (!ValidAlias(Trim(raw.alias)) ==> r == Err(Validation))
            && (ValidAlias(Trim(raw.alias)) && !Taken(db.rows, owner, Trim(raw.alias)) ==> r == Err(NotFound))
  {
    hide PlanUpdate, ValidAlias, Trim;
    FindLiveIff(db.rows, owner, Trim(raw.alias));
  }

  lemma UpdateRecords(rules: Rules, db: Db, owner: Owner, raw: UpdateInput, category: Category, i: nat)
    requires StoreOk(db) && LiveAt(db.rows, i, owner, Trim(raw.alias))
    requires UpdateOp(rules, db, owner, raw, category).1.Ok?
    ensures var (db', r) := UpdateOp(rules, db, owner, raw, category);
            var before := db.rows[i];
            var after := Planned(before, NormalizeUpdate(raw, category, rules.upper));
            r.value == after && db'.rows == db.rows[i := after] && UpdateRecorded(db, db', i, before, after)
  {
    hide UpdateOp, NormalizeUpdate, ChangedFields, EventsOf, NextHistoryVersion, ValidAlias, Trim, CheckOverlap;
    var before := db.rows[i];
    var after := Planned(before, NormalizeUpdate(raw, category, rules.upper));
    assert OneLive(db.rows);
    NextVersion(db, owner, Trim(raw.alias));
    UpdateEffect(rules, db, owner, raw, category);
    hide StoreOk;
    FindLiveAt(db.rows, i, owner, Trim(raw.alias));
    ChangedFieldsAre(before, after);
    hide Planned;
    assert after.owner == before.owner && after.alias == before.alias;
  }

  /** An update of a live credential succeeds exactly when it is valid and changes something; then
      that row becomes the requested one and one event, the next of its owner and alias, lists the
      fields that differ. Without a live credential it finds none, and a refused one changes nothing. */
  lemma UpdateOutcome(rules: Rules, db: Db, owner: Owner, raw: UpdateInput, category: Category)
    requires StoreOk(db)
    ensures var (db', r) := UpdateOp(rules, db, owner, raw, category);
            var alias := Trim(raw.alias);
            && (r.Err? ==> db' == db)
            && (!ValidAlias(alias) ==> r == Err(Validation))
            && (ValidAlias(alias) && !Taken(db.rows, owner, alias) ==> r == Err(NotFound))
            && forall i: nat | LiveAt(db.rows, i, owner, alias) ::
                 var before := db.rows[i];
                 var after := Planned(before, NormalizeUpdate(raw, category, rules.upper));
                 && UpdatedOf(before, raw, category, after, rules.upper)
                 && (r.Ok? <==> UpdateValid(rules, before, raw, category) && after != before)
                 && (r.Err? ==> r.error == Validation)
                 && (r.Ok? ==> r.value == after && db'.rows == db.rows[i := after]
                               && UpdateRecorded(db, db', i, before, after))
  {
    var (db', r) := UpdateOp(rules, db, owner, raw, category);
    var alias := Trim(raw.alias);
    UpdateRefused(rules, db, owner, raw, category);
    hide UpdateOp, ValidAlias, UpdatedOf, UpdateValid, NormalizeUpdate, Planned, StoreOk, UpdateRecorded;
    forall i: nat | LiveAt(db.rows, i, owner, alias)
      ensures var before := db.rows[i];
              var after := Planned(before, NormalizeUpdate(raw, category, rules.upper));
              && UpdatedOf(before, raw, category, after, rules.upper)
              && (r.Ok? <==> UpdateValid(rules, before, raw, category) && after != before)
              && (r.Err? ==> r.error == Validation)
              && (r.Ok? ==> r.value == after && db'.rows == db.rows[i := after]
                            && UpdateRecorded(db, db', i, before, after))
    {
      PlannedIs(db.rows[i], raw, category, rules.upper);
      UpdateDecides(rules, db, owner, raw, category, i);
      if r.Ok? {
        UpdateRecords(rules, db, owner, raw, category, i);
      }
    }
  }

  // ---------- delete ----------

  /** A delete succeeds exactly when its reason and alias are in order and the alias is live; then
      that row loses its secret and its life and one event is recorded, and otherwise nothing changes. */
  lemma DeleteOutcome(rules: Rules, db: Db, owner: Owner, rawAlias: string, reason: string)
    requires StoreOk(db)
    ensures var (db', r) := DeleteOp(rules, db, owner, rawAlias, reason);
            var alias := Trim(rawAlias);
            var valid := rules.reasonOk(reason) && ValidAlias(alias);
            && (r.Err? ==> db' == db)
            && (r == Err(Validation) <==> !valid)
            && (r == Err(NotFound) <==> valid && !Taken(db.rows, owner, alias))
            && (r.Ok? <==> valid && Taken(db.rows, owner, alias))
            && (r.Ok? ==>
                  forall i: nat | LiveAt(db.rows, i, owner, alias) ::
                    && db'.rows == db.rows[i := db.rows[i].(secret := None, deleted := true)]
                    && db'.history == db.history
                       + [Event(i, owner, alias, Delete, |EventsOf(db.history, owner, alias)| + 1, [])])
  {
    var (db', r) := DeleteOp(rules, db, owner, rawAlias, reason);
    var alias := Trim(rawAlias);
    assert OneLive(db.rows);
    NextVersion(db, owner, alias);
    FindLiveIff(db.rows, owner, alias);
    FirstMatches(db.rows, row => IsLive(row, owner, alias));
    hide EventsOf, MaxVersion, ValidAlias, Trim;
    if r.Ok? {
      DeleteEffect(rules, db, owner, rawAlias, reason);
      forall i: nat | LiveAt(db.rows, i, owner, alias) ensures FindLive(db.rows, owner, alias) == Some(i) {
        FindLiveAt(db.rows, i, owner, alias);
      }
    }
  }
}
