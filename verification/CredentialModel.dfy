/**
 Credentials, their policies and the normalization both registration and update apply
 (backend/crates/model/src/credential/).
 */
module CredentialModel {
  import opened Wrappers
  import opened Text

  type Owner = nat

  datatype Category = Http | Sql

  datatype Target = HttpTarget(origin: string, basePath: string) | SqlTarget(databaseUrl: string)

  datatype SecretHeader = SecretHeader(name: string, value: string)

  datatype Secret = HttpSecret(headers: seq<SecretHeader>) | SqlSecret(username: string, password: string)

  /** An ideal authenticated seal: it opens under the alias it was made for, and gives back what went in. */
  datatype Ciphertext = Sealed(alias: string, secret: Secret)

  function Seal(alias: string, secret: Secret): Ciphertext {
    Sealed(alias, secret)
  }

  function Open(alias: string, c: Ciphertext): Result<Secret, Error> {
    if c.alias == alias then Ok(c.secret) else Err(Internal)
  }

  datatype Policy = Policy(
    allowedMethods: seq<string>,
    allowedRequestPathPrefixes: seq<string>,
    deniedQueryKeys: seq<string>,
    allowedRequestHeaders: seq<string>,
    allowMetadata: bool,
    allowExplain: bool,
    allowExplainAnalyze: bool,
    deniedFunctions: seq<string>,
    maxRows: nat,
    maxBytes: nat,
    timeoutMs: nat)

  datatype RegisterInput = RegisterInput(
    category: Category,
    provider: string,
    alias: string,
    target: Target,
    secret: Secret,
    description: string,
    env: string,
    tags: seq<string>,
    policy: Policy,
    allowPrivateNetwork: bool,
    allowInsecureTransport: bool,
    tlsServerCa: Option<string>)

  datatype UpdateInput = UpdateInput(
    alias: string,
    reason: string,
    description: Option<string>,
    env: Option<string>,
    tags: Option<seq<string>>,
    policy: Option<Policy>)

  /** Unicode upper-casing, and the pattern, length and range checks this model does not spell
      out: arbitrary decisions on normalized input. */
  datatype Rules = Rules(
    upper: char -> string,
    registerOk: RegisterInput -> bool,
    updateOk: (Category, UpdateInput) -> bool,
    reasonOk: string -> bool)

  // ---------- headers ----------

  predicate ContainsFold(items: seq<string>, want: string) {
    exists i | 0 <= i < |items| :: EqFold(items[i], want)
  }

  /** Each part between dashes starts upper-case and goes on lower-case. */
  function CanonicalFrom(name: string, atStart: bool, upper: char -> string): string {
    if name == "" then ""
    else if name[0] == '-' then "-" + CanonicalFrom(name[1..], true, upper)
    else (if atStart then upper(name[0]) else [LowerChar(name[0])]) + CanonicalFrom(name[1..], false, upper)
  }

  function CanonicalHeaderName(name: string, upper: char -> string): string {
    CanonicalFrom(Trim(name), true, upper)
  }

  function HeaderNames(headers: seq<SecretHeader>): seq<string> {
    seq(|headers|, i requires 0 <= i < |headers| => headers[i].name)
  }

  /** `validate_allowed_headers_do_not_overlap_secret` */
  predicate NoOverlap(policy: Policy, names: seq<string>) {
    forall i, j | 0 <= i < |policy.allowedRequestHeaders| && 0 <= j < |names| ::
      !EqFold(policy.allowedRequestHeaders[i], names[j])
  }

  method ValidateNoOverlap(policy: Policy, names: seq<string>) returns (r: Result<(), Error>)
    ensures r.Ok? <==> NoOverlap(policy, names)
    ensures r.Err? ==> r.error == Validation
  {
    for i := 0 to |policy.allowedRequestHeaders|
      invariant forall k, j | 0 <= k < i && 0 <= j < |names| :: !EqFold(policy.allowedRequestHeaders[k], names[j])
    {
      for j := 0 to |names|
        invariant forall k | 0 <= k < j :: !EqFold(policy.allowedRequestHeaders[i], names[k])
      {
        if EqFold(policy.allowedRequestHeaders[i], names[j]) {
          return Err(Validation);
        }
      }
    }
    r := Ok(());
  }

  // ---------- normalization ----------

  predicate AliasRest(c: char) {
    IsLower(c) || IsDigit(c) || c == '_' || c == '.' || c == '-'
  }

  /** ^[a-z][a-z0-9_.-]{1,126}$ */
  predicate ValidAlias(alias: string) {
    2 <= |alias| <= 127 && IsLower(alias[0]) && forall i | 1 <= i < |alias| :: AliasRest(alias[i])
  }

  lemma ValidAliasTrims(alias: string)
    requires ValidAlias(alias)
    ensures Trim(alias) == alias != ""
  {
    TrimIdentity(alias);
  }

  function TrimOptional(value: Option<string>): Option<string> {
    if value == None then None else Some(Trim(value.value))
  }

  /** Sorted insertion, leaving out empty and repeated tags. */
  function AddTag(tags: seq<string>, tag: string): seq<string> {
    if tag == "" then tags
    else if tags == [] || Less(tag, tags[0]) then [tag] + tags
    else if tags[0] == tag then tags
    else [tags[0]] + AddTag(tags[1..], tag)
  }

  function NormalizeTags(tags: seq<string>): seq<string> {
    if tags == [] then [] else AddTag(NormalizeTags(tags[..|tags| - 1]), Lower(Trim(tags[|tags| - 1])))
  }

  function MapStrings(items: seq<string>, f: string -> string): seq<string> {
    seq(|items|, i requires 0 <= i < |items| => f(items[i]))
  }

  function NormalizePolicy(policy: Policy, category: Category, upper: char -> string): Policy {
    match category
    case Http =>
      var methods := if policy.allowedMethods == [] then ["GET"] else policy.allowedMethods;
      policy.(
        allowedMethods := MapStrings(methods, m => Upper(Trim(m))),
        allowedRequestPathPrefixes :=
          if policy.allowedRequestPathPrefixes == [] then ["/"] else policy.allowedRequestPathPrefixes,
        allowedRequestHeaders := MapStrings(policy.allowedRequestHeaders, h => CanonicalHeaderName(h, upper)))
    case Sql =>
      policy.(deniedFunctions := MapStrings(policy.deniedFunctions, f => Lower(Trim(f))))
  }

  function TrimSlashes(s: string): string {
    if s != "" && s[|s| - 1] == '/' then TrimSlashes(s[..|s| - 1]) else s
  }

  /** `stem` is `s` without the slashes at its end. */
  ghost predicate IsStem(s: string, stem: string) {
    && stem <= s
    && (forall i | |stem| <= i < |s| :: s[i] == '/')
    && (stem != "" ==> stem[|stem| - 1] != '/')
  }

  lemma {:induction false} TrimSlashesIs(s: string)
    ensures IsStem(s, TrimSlashes(s))
  {
    if s != "" && s[|s| - 1] == '/' {
      TrimSlashesIs(s[..|s| - 1]);
    }
  }

  function NormalizeBasePath(value: string): string {
    var path := Trim(value);
    if path == "" || path == "/" then "/" else TrimSlashes(path)
  }

  function NormalizeTarget(target: Target): Target {
    match target
    case HttpTarget(origin, basePath) => HttpTarget(TrimSlashes(Trim(origin)), NormalizeBasePath(basePath))
    case SqlTarget(url) => SqlTarget(Trim(url))
  }

  function NormalizeSecret(secret: Secret, upper: char -> string): Secret {
    match secret
    case HttpSecret(headers) =>
      HttpSecret(seq(|headers|, i requires 0 <= i < |headers| =>
        SecretHeader(CanonicalHeaderName(headers[i].name, upper), headers[i].value)))
    case SqlSecret(_, _) => secret
  }

  function NormalizeCa(ca: Option<string>): Option<string> {
    if ca == None || Trim(ca.value) == "" then None else Some(Trim(ca.value))
  }

  function NormalizeRegister(input: RegisterInput, upper: char -> string): RegisterInput {
    input.(
      provider := if input.category == Sql && Trim(input.provider) == "" then "postgres" else Trim(input.provider),
      alias := Trim(input.alias),
      target := NormalizeTarget(input.target),
      description := Trim(input.description),
      env := if Trim(input.env) == "" then "dev" else Trim(input.env),
      tags := NormalizeTags(input.tags),
      policy := NormalizePolicy(input.policy, input.category, upper),
      secret := NormalizeSecret(input.secret, upper),
      tlsServerCa := NormalizeCa(input.tlsServerCa))
  }

  /** `validate_register_input`: kinds agree, the alias is well formed, an HTTP policy does not
      name a secret header; everything else is `registerOk`. */
  predicate RegisterAccepted(rules: Rules, input: RegisterInput) {
    && ValidAlias(input.alias)
    && (input.target.HttpTarget? <==> input.category == Http)
    && (input.secret.HttpSecret? <==> input.category == Http)
    && (input.category == Http ==> NoOverlap(input.policy, HeaderNames(input.secret.headers)))
    && rules.registerOk(input)
  }
}
